/** Daily returns and the market and sector views built from them (internal/dayrange/snapshot.go). */
module Returns {
  import opened Market
  import opened Calendar

  datatype Stock = Stock(code: string, name: string, sector: string)

  datatype Input = Input(stock: Stock, adjusted: seq<Bar>, raw: seq<Bar>, adjustedSource: map<Day, string>,
      rawSource: map<Day, string>)

  /** The return of a date: of the last bar with that date that follows a bar with a price. */
  function ReturnOn(log: real -> real, bars: seq<Bar>, d: int): Option<real> {
    if |bars| <= 1 then None
    else
      var last, previous := bars[|bars| - 1], bars[|bars| - 2];
      if last.date == d && previous.close > 0.0 && last.close > 0.0 then Some(log(last.close / previous.close))
      else ReturnOn(log, bars[..|bars| - 1], d)
  }

  method DailyReturns(log: real -> real, bars: seq<Bar>) returns (out: map<int, real>)
    ensures forall d :: d in out <==> ReturnOn(log, bars, d).Some?
    ensures forall d :: d in out ==> ReturnOn(log, bars, d) == Some(out[d])
  {
    out := map[];
    var previous := 0.0;
    for i := 0 to |bars|
      invariant previous == if i == 0 then 0.0 else bars[i - 1].close
      invariant forall d :: d in out <==> ReturnOn(log, bars[..i], d).Some?
      invariant forall d :: d in out ==> ReturnOn(log, bars[..i], d) == Some(out[d])
    {
      var bar := bars[i];
      ghost var longer := bars[..i + 1];
      assert longer[..i] == bars[..i] && longer[i] == bar && (i > 0 ==> longer[i - 1] == bars[i - 1]);
      if previous > 0.0 && bar.close > 0.0 {
        out := out[bar.date := log(bar.close / previous)];
      }
      previous := bar.close;
    }
    assert bars[..|bars|] == bars;
  }

  // ---------- The market ----------

  /** The series of a code is that of the last input with it. */
  function LastOf(input: seq<Input>, code: string): (r: Option<nat>)
    ensures r.Some? ==> r.value < |input| && input[r.value].stock.code == code
    ensures r.None? ==> forall i :: 0 <= i < |input| ==> input[i].stock.code != code
  {
    if |input| == 0 then None
    else if input[|input| - 1].stock.code == code then Some(|input| - 1)
    else LastOf(input[..|input| - 1], code)
  }

  function MarketReturn(log: real -> real, input: seq<Input>, code: string, d: int): Option<real> {
    var i := LastOf(input, code);
    if i.None? then None else ReturnOn(log, input[i.value].raw, d)
  }

  /** The returns of a day over the first `n` inputs. */
  function DayValues(log: real -> real, input: seq<Input>, d: int, n: nat): seq<real>
    requires n <= |input|
  {
    if n == 0 then []
    else
      var r := MarketReturn(log, input, input[n - 1].stock.code, d);
      DayValues(log, input, d, n - 1) + (if r.Some? then [r.value] else [])
  }

  function Sum(values: seq<real>): real {
    if |values| == 0 then 0.0 else Sum(values[..|values| - 1]) + values[|values| - 1]
  }

  function Positives(values: seq<real>): nat {
    if |values| == 0 then 0 else Positives(values[..|values| - 1]) + if values[|values| - 1] > 0.0 then 1 else 0
  }

  function Mean(values: seq<real>): real {
    if |values| == 0 then 0.0 else Sum(values) / |values| as real
  }

  function SquaresAround(values: seq<real>, m: real): real {
    if |values| == 0 then 0.0
    else SquaresAround(values[..|values| - 1], m) + (values[|values| - 1] - m) * (values[|values| - 1] - m)
  }

  function Std(sqrt: real -> real, values: seq<real>): real {
    if |values| < 2 then 0.0 else sqrt(SquaresAround(values, Mean(values)) / (|values| - 1) as real)
  }

  function AverageOn(log: real -> real, input: seq<Input>, d: int): Option<real> {
    var values := DayValues(log, input, d, |input|);
    if |values| == 0 then None else Some(Sum(values) / |values| as real)
  }

  function BreadthOn(log: real -> real, input: seq<Input>, d: int): Option<real> {
    var values := DayValues(log, input, d, |input|);
    if |values| == 0 then None else Some(Positives(values) as real / |values| as real)
  }

  /** The averages of some days, days without one left out. */
  function Averages(log: real -> real, input: seq<Input>, days: seq<Day>): seq<real> {
    if |days| == 0 then []
    else
      var a := AverageOn(log, input, days[|days| - 1]);
      Averages(log, input, days[..|days| - 1]) + (if a.Some? then [a.value] else [])
  }

  function Breadths(log: real -> real, input: seq<Input>, days: seq<Day>): seq<real> {
    if |days| == 0 then []
    else
      var b := BreadthOn(log, input, days[|days| - 1]);
      Breadths(log, input, days[..|days| - 1]) + (if b.Some? then [b.value] else [])
  }

  datatype Stats = Stats(available: bool, return1: real, return5: real, trend20: real, vol20: real, breadth5: real)

  const UNAVAILABLE := Stats(false, 0.0, 0.0, 0.0, 0.0, 0.0)

  /** The market on the i-th day: its own average, and those of the twenty days before. */
  function StatsAt(sqrt: real -> real, log: real -> real, input: seq<Input>, days: seq<Day>, i: nat): Stats
    requires i < |days|
  {
    if i < 20 then UNAVAILABLE
    else
      var values := Averages(log, input, days[i - 20..i]);
      if |values| < 20 then UNAVAILABLE
      else
        var today := AverageOn(log, input, days[i]);
        Stats(true, if today.Some? then today.value else 0.0, Mean(Averages(log, input, days[i - 5..i])), Mean(values),
              Std(sqrt, values), Mean(Breadths(log, input, days[i - 5..i])))
  }

  lemma SumGrows(values: seq<real>, x: real)
    ensures Sum(values + [x]) == Sum(values) + x
    ensures Positives(values + [x]) == Positives(values) + if x > 0.0 then 1 else 0
  {
    assert (values + [x])[..|values|] == values;
  }

  /** The values of some days in a map, days without one left out. */
  function Known(values: map<Day, real>, days: seq<Day>): seq<real> {
    if |days| == 0 then []
    else Known(values, days[..|days| - 1]) + (if days[|days| - 1] in values then [values[days[|days| - 1]]] else [])
  }

  method MeanOf(values: map<Day, real>, days: seq<Day>) returns (r: real)
    ensures r == Mean(Known(values, days))
  {
    var sum, n := 0.0, 0;
    for k := 0 to |days|
      invariant sum == Sum(Known(values, days[..k])) && n == |Known(values, days[..k])|
    {
      assert days[..k + 1][..k] == days[..k];
      if days[k] in values {
        SumGrows(Known(values, days[..k]), values[days[k]]);
        sum, n := sum + values[days[k]], n + 1;
      } else {
        assert Known(values, days[..k + 1]) == Known(values, days[..k]);
      }
    }
    assert days[..|days|] == days;
    if n == 0 {
      return 0.0;
    }
    return sum / n as real;
  }

  /** What the builder's maps must hold for the days of the calendar. */
  ghost predicate Tabulates(log: real -> real, input: seq<Input>, days: seq<Day>, averages: map<Day, real>,
      breadth: map<Day, real>) {
    forall k :: 0 <= k < |days| ==>
      && (days[k] in averages <==> AverageOn(log, input, days[k]).Some?)
      && (days[k] in averages ==> AverageOn(log, input, days[k]) == Some(averages[days[k]]))
      && (days[k] in breadth <==> BreadthOn(log, input, days[k]).Some?)
      && (days[k] in breadth ==> BreadthOn(log, input, days[k]) == Some(breadth[days[k]]))
  }

  lemma {:induction false} KnownIs(log: real -> real, input: seq<Input>, days: seq<Day>, averages: map<Day, real>,
      breadth: map<Day, real>)
    requires Tabulates(log, input, days, averages, breadth)
    ensures Known(averages, days) == Averages(log, input, days) && Known(breadth, days) == Breadths(log, input, days)
  {
    hide AverageOn, BreadthOn;
    if |days| > 0 {
      var rest := days[..|days| - 1];
      assert Tabulates(log, input, rest, averages, breadth) by {
        forall k | 0 <= k < |rest| ensures rest[k] == days[k] {
        }
      }
      KnownIs(log, input, rest, averages, breadth);
    }
  }

  lemma PartTabulates(log: real -> real, input: seq<Input>, days: seq<Day>, averages: map<Day, real>, breadth: map<Day,
      real>, i: nat, j: nat)
    requires Tabulates(log, input, days, averages, breadth) && i <= j <= |days|
    ensures Tabulates(log, input, days[i..j], averages, breadth)
  {
    hide AverageOn, BreadthOn;
    forall k | 0 <= k < j - i ensures days[i..j][k] == days[i + k] {
    }
  }

  /** The values of one day over all series. */
  method DayOf(log: real -> real, input: seq<Input>, returns_: map<string, map<int, real>>, d: Day)
      returns (values: seq<real>)
    requires Returned(log, input, returns_)
    ensures values == DayValues(log, input, d, |input|)
  {
    hide MarketReturn;
    values := [];
    for k := 0 to |input|
      invariant values == DayValues(log, input, d, k)
    {
      var code := input[k].stock.code;
      if d in returns_[code] {
        values := values + [returns_[code][d]];
      }
    }
  }

  /** The table of daily returns by code. */
  ghost predicate Returned(log: real -> real, input: seq<Input>, returns_: map<string, map<int, real>>) {
    forall k :: 0 <= k < |input| ==>
      var code := input[k].stock.code;
      && code in returns_
      && (forall d :: d in returns_[code] <==> MarketReturn(log, input, code, d).Some?)
      && (forall d :: d in returns_[code] ==> MarketReturn(log, input, code, d) == Some(returns_[code][d]))
  }

  /** Averages and breadths of the days that have returns at all. */
  method Tabulate(log: real -> real, input: seq<Input>, returns_: map<string, map<int, real>>, days: seq<Day>)
    returns (averages: map<Day, real>, breadth: map<Day, real>)
    requires Returned(log, input, returns_)
    ensures Tabulates(log, input, days, averages, breadth)
  {
    hide DayValues, Returned;
    averages, breadth := map[], map[];
    for i := 0 to |days|
      invariant Tabulates(log, input, days[..i], averages, breadth)
      invariant forall d :: d in averages || d in breadth ==> d in days[..i]
    {
      var day := days[i];
      var values := DayOf(log, input, returns_, day);
      assert days[..i + 1] == days[..i] + [day];
      if |values| == 0 {
        continue;
      }
      var sum, positive := 0.0, 0;
      for k := 0 to |values|
        invariant sum == Sum(values[..k]) && positive == Positives(values[..k])
      {
        assert values[..k + 1] == values[..k] + [values[k]];
        SumGrows(values[..k], values[k]);
        sum := sum + values[k];
        if values[k] > 0.0 {
          positive := positive + 1;
        }
      }
      assert values[..|values|] == values;
      averages := averages[day := sum / |values| as real];
      breadth := breadth[day := positive as real / |values| as real];
    }
    assert days[..|days|] == days;
  }

  /** The last place of a day in a list that may repeat days. */
  function LastPlace(days: seq<Day>, d: Day): (i: nat)
    requires d in days
    ensures i < |days| && days[i] == d && forall j :: i < j < |days| ==> days[j] != d
  {
    if days[|days| - 1] == d then |days| - 1 else LastPlace(days[..|days| - 1], d)
  }

  lemma OnlyPlace(days: seq<Day>, i: nat)
    requires StrictlyAscending(days) && i < |days|
    ensures LastPlace(days, days[i]) == i
  {
  }

  /** The market statistics of every day of the calendar; a repeated day keeps those of its last place. */
  method BuildMarketStats(sqrt: real -> real, log: real -> real, days: seq<Day>, input: seq<Input>,
      returns_: map<string, map<int, real>>)
    returns (out: map<Day, Stats>)
    requires Returned(log, input, returns_)
    ensures forall d :: d in out <==> d in days
    ensures forall d <- out :: out[d] == StatsAt(sqrt, log, input, days, LastPlace(days, d))
  {
    hide Tabulates, Returned, AverageOn, BreadthOn, Averages, Breadths, Known, Mean, Std, Sum, LastPlace;
    var averages, breadth := Tabulate(log, input, returns_, days);
    out := map[];
    for i := 0 to |days|
      invariant forall d :: d in out <==> d in days[..i]
      invariant forall d <- out :: out[d] == StatsAt(sqrt, log, input, days, LastPlace(days[..i], d))
    {
      PlaceAfter(days, i);
      var day := days[i];
      if i < 20 {
        out := out[day := UNAVAILABLE];
        continue;
      }
      var values := KnownValues(averages, days[i - 20..i]);
      PartTabulates(log, input, days, averages, breadth, i - 20, i);
      KnownIs(log, input, days[i - 20..i], averages, breadth);
      if |values| < 20 {
        out := out[day := UNAVAILABLE];
        continue;
      }
      var last5 := MeanOf(averages, days[i - 5..i]);
      var breadth5 := MeanOf(breadth, days[i - 5..i]);
      PartTabulates(log, input, days, averages, breadth, i - 5, i);
      KnownIs(log, input, days[i - 5..i], averages, breadth);
      var today := 0.0;
      if day in averages {
        today := averages[day];
      }
      TodayIs(log, input, days, averages, breadth, i);
      out := out[day := Stats(true, today, last5, Mean(values), Std(sqrt, values), breadth5)];
    }
    assert days[..|days|] == days;
  }

  lemma PlaceAfter(days: seq<Day>, i: nat)
    requires i < |days|
    ensures days[..i + 1] == days[..i] + [days[i]] && LastPlace(days[..i + 1], days[i]) == i
    ensures forall d :: d in days[..i] && d != days[i] ==> LastPlace(days[..i + 1], d) == LastPlace(days[..i], d)
  {
    assert days[..i + 1][..i] == days[..i];
  }

  lemma TodayIs(log: real -> real, input: seq<Input>, days: seq<Day>, averages: map<Day, real>, breadth: map<Day,
      real>, i: nat)
    requires Tabulates(log, input, days, averages, breadth) && i < |days|
    ensures var a := AverageOn(log, input, days[i]);
      (days[i] in averages <==> a.Some?) && (days[i] in averages ==> a == Some(averages[days[i]]))
  {
  }

  method KnownValues(values: map<Day, real>, days: seq<Day>) returns (r: seq<real>)
    ensures r == Known(values, days)
  {
    r := [];
    for k := 0 to |days|
      invariant r == Known(values, days[..k])
    {
      assert days[..k + 1][..k] == days[..k];
      if days[k] in values {
        r := r + [values[days[k]]];
      }
    }
    assert days[..|days|] == days;
  }

  /** The returns of all series, a later series with the same code replacing an earlier one. */
  method AllReturns(log: real -> real, input: seq<Input>) returns (r: map<string, map<int, real>>)
    ensures Returned(log, input, r)
  {
    hide ReturnOn;
    r := map[];
    for i := 0 to |input|
      invariant forall code :: code in r <==> LastOf(input[..i], code).Some?
      invariant forall code :: code in r ==>
        var bars := input[..i][LastOf(input[..i], code).value].raw;
        && (forall d :: d in r[code] <==> ReturnOn(log, bars, d).Some?)
        && (forall d :: d in r[code] ==> ReturnOn(log, bars, d) == Some(r[code][d]))
    {
      var daily := DailyReturns(log, input[i].raw);
      assert input[..i + 1][..i] == input[..i];
      r := r[input[i].stock.code := daily];
    }
    assert input[..|input|] == input;
  }
}
