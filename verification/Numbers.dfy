/** The bottom signals in the numbers of the indicators and the prices. */
module Numbers {
  import opened Market
  import opened Signals
  import Boosting

  // ---------- the metrics ----------

  /** The squared distances of the closes from a number. */
  function SquaresOf(bars: seq<Bar>, mean: real): (r: seq<real>)
    ensures |r| == |bars|
  {
    seq(|bars|, k requires 0 <= k < |bars| => (bars[k].close - mean) * (bars[k].close - mean))
  }

  lemma {:induction false} DeviationsAre(bars: seq<Bar>, mean: real)
    ensures SquaredDeviations(bars, mean) == Boosting.Total(SquaresOf(bars, mean))
  {
    if bars != [] {
      var rest := bars[..|bars| - 1];
      DeviationsAre(rest, mean);
      var squares := SquaresOf(bars, mean);
      forall k | 0 <= k < |rest| ensures squares[k] == SquaresOf(rest, mean)[k] {
        assert rest[k] == bars[k];
      }
      assert squares[..|squares| - 1] == SquaresOf(rest, mean);
    }
  }

  /**
   * From the 35th day on, the metric of a day comes from the score of the bars up to it: its histogram is twice the
   * distance of the two averages, and its lower band is two standard deviations, over the last twenty closes, below the
   * moving average.
   */
  lemma MetricsAre(ind: Indicators, bars: seq<Bar>, n: nat, k: nat)
    requires n <= |bars| && Metrics(ind, bars, n).Some? && 34 <= k < n
    ensures ind.score(bars[..k + 1]).Some?
    ensures var m, x := Metrics(ind, bars, n).value[k], ind.score(bars[..k + 1]).value;
      && m.rsi == x.rsi14 && m.dif == x.dif && m.hist == 2.0 * (x.dif - x.dea) && m.ma20 == x.ma20
      && m.lower == x.ma20 - 2.0 * ind.sqrt(Boosting.Total(SquaresOf(bars[k - 19..k + 1], x.ma20)) / 20.0)
  {
    hide SquaresOf, SquaredDeviations;
    MetricsShorter(ind, bars, k + 1, n);
    var x := ind.score(bars[..k + 1]).value;
    assert bars[..k + 1][k + 1 - 20..] == bars[k - 19..k + 1];
    DeviationsAre(bars[k - 19..k + 1], x.ma20);
  }

  predicate Scored(ind: Indicators, bars: seq<Bar>, k: int)
    requires 0 <= k < |bars|
  {
    ind.score(bars[..k + 1]).Some?
  }

  /** A history has signals exactly when the score of every day from the 35th on exists. */
  lemma SignalsExistIff(ind: Indicators, bars: seq<Bar>)
    ensures SignalsOf(ind, bars).Some? <==> forall k :: 34 <= k < |bars| ==> Scored(ind, bars, k)
  {
    MetricsExistIff(ind, bars, |bars|);
  }

  lemma {:induction false} MetricsExistIff(ind: Indicators, bars: seq<Bar>, n: nat)
    requires n <= |bars|
    ensures Metrics(ind, bars, n).Some? <==> forall k :: 34 <= k < n ==> Scored(ind, bars, k)
  {
    if n > 0 {
      MetricsExistIff(ind, bars, n - 1);
      if n > 34 {
        assert Scored(ind, bars, n - 1) <==> MetricOf(ind, bars[..n]).Some?;
      }
    }
  }

  // ---------- the events ----------

  /** The low of day `p` lies below those of the two days before it and of the two days after it. */
  ghost predicate Bottom(bars: seq<Bar>, p: int)
    requires 2 <= p && p + 2 < |bars|
  {
    forall k :: p - 2 <= k <= p + 2 && k != p ==> bars[p].low < bars[k].low
  }

  /** Day `q` is the nearest bottom, from the 36th day on, at least five days before day `p`. */
  ghost predicate Nearest(bars: seq<Bar>, p: int, q: int)
    requires 2 <= p && p + 2 < |bars|
  {
    35 <= q <= p - 5 && Bottom(bars, q) && forall k :: q < k <= p - 5 ==> !Bottom(bars, k)
  }

  /** Two bottoms at most sixty days apart, the later one at least half a percent lower. */
  ghost predicate LowerBottom(bars: seq<Bar>, p: int, q: int)
    requires 2 <= p && p + 2 < |bars|
  {
    && Bottom(bars, p) && Nearest(bars, p, q) && p - q <= 60
    && bars[p].low <= bars[q].low * 0.995
  }

  /** The relative strength of two days, neither above 45, the later one at least three points higher. */
  predicate StrengthRises(m: seq<Metric>, q: int, p: int)
    requires 0 <= q < |m| && 0 <= p < |m|
  {
    m[q].rsi <= 45.0 && m[p].rsi <= 45.0 && m[p].rsi >= m[q].rsi + 3.0
  }

  ghost predicate StrengthDiverges(bars: seq<Bar>, m: seq<Metric>, p: int)
    requires 2 <= p && p + 2 < |bars| == |m|
  {
    exists q :: LowerBottom(bars, p, q) && StrengthRises(m, q, p)
  }

  /** The difference of the averages is negative at both bottoms, and higher at the later one. */
  ghost predicate AveragesDiverge(bars: seq<Bar>, m: seq<Metric>, p: int)
    requires 2 <= p && p + 2 < |bars| == |m|
  {
    exists q :: LowerBottom(bars, p, q) && m[q].dif < m[p].dif < 0.0
  }

  /**
   * The events of a day from the 60th on. The relative strength was at most 30 on three days and above it before; the
   * histogram is negative and has risen for three days below the moving average, and had not done so the day before;
   * the close is back above the lower band; or the day confirms the bottom two days before as lower than the nearest
   * one, with a relative strength at least three points higher and none above 45, or with a higher negative difference.
   */
  lemma EventsInNumbers(bars: seq<Bar>, m: seq<Metric>, i: nat)
    requires 59 <= i < |bars| && |m| == |bars|
    ensures
      var events := DetectTo(bars, m, |bars|).0[i].events;
      && (RsiPersistence in events <==>
            m[i].rsi <= 30.0 && m[i - 1].rsi <= 30.0 && m[i - 2].rsi <= 30.0 && m[i - 3].rsi > 30.0)
      && (MacdContraction in events <==>
            && 0.0 > m[i].hist > m[i - 1].hist > m[i - 2].hist > m[i - 3].hist && bars[i].close < m[i].ma20
            && (m[i - 3].hist <= m[i - 4].hist || bars[i - 1].close >= m[i - 1].ma20))
      && (BollingerReentry in events <==> bars[i - 1].close < m[i - 1].lower && bars[i].close >= m[i].lower)
      && (RsiDivergence in events <==> StrengthDiverges(bars, m, i - 2))
      && (MacdDivergence in events <==> AveragesDiverge(bars, m, i - 2))
  {
    hide DetectTo, Diverges;
    EventsMean(bars, m, i);
    DivergesIff(bars, m, i - 2, RsiDivergence);
    DivergesIff(bars, m, i - 2, MacdDivergence);
  }

  lemma NearestIsPrior(bars: seq<Bar>, p: int, q: int)
    requires 2 <= p && p + 2 < |bars|
    ensures IsPrior(bars, p, q) <==> Nearest(bars, p, q)
  {
    hide IsLow, Bottom;
    if 35 <= q <= p - 5 {
      forall k | q <= k <= p - 5 ensures IsLow(bars, k) <==> Bottom(bars, k) {
        BottomIsLow(bars, k);
      }
    }
  }

  lemma BottomIsLow(bars: seq<Bar>, p: int)
    requires 2 <= p && p + 2 < |bars|
    ensures IsLow(bars, p) <==> Bottom(bars, p)
  {
  }

  lemma DivergesIff(bars: seq<Bar>, m: seq<Metric>, p: int, e: Event)
    requires 2 <= p && p + 2 < |bars| && |m| == |bars|
    ensures e == RsiDivergence ==> (Diverges(bars, m, p, e) <==> StrengthDiverges(bars, m, p))
    ensures e == MacdDivergence ==> (Diverges(bars, m, p, e) <==> AveragesDiverge(bars, m, p))
  {
    hide IsLow, Bottom;
    BottomIsLow(bars, p);
    if Diverges(bars, m, p, e) {
      var q :| IsPrior(bars, p, q) && e in Divergences(bars, m, p, Some(q));
      NearestIsPrior(bars, p, q);
      assert LowerBottom(bars, p, q);
    }
    if q :| LowerBottom(bars, p, q) && 35 <= q < p {
      NearestIsPrior(bars, p, q);
    }
  }

  // ---------- the rest of a signal ----------

  lemma DayIs(bars: seq<Bar>, m: seq<Metric>, i: nat) returns (c: Carry)
    requires i < |bars| && |m| == |bars|
    ensures ValidPivots(c.pivots, i) && Remembers(bars, m, i, c)
    ensures DetectTo(bars, m, |bars|).0[i] == Detect(bars, m, i, c).0
  {
    hide Detect, Remembers;
    c := DetectTo(bars, m, i).1;
    DetectionRemembers(bars, m, i);
    DetectToShorter(bars, m, i + 1, |bars|);
    assert DetectTo(bars, m, |bars|).0[i] == DetectTo(bars, m, i + 1).0[i];
  }

  /** Nothing is shown before the 60th day. */
  lemma QuietBefore(bars: seq<Bar>, m: seq<Metric>, i: nat)
    requires i < 59 && i < |bars| && |m| == |bars|
    ensures DetectTo(bars, m, |bars|).0[i].events == [] && DetectTo(bars, m, |bars|).0[i].states == []
  {
    hide DetectTo;
    var c := DayIs(bars, m, i);
  }

  /**
   * A signal carries the date and the close of its day; its states are those that last as well as those that begin; and
   * it names the confirmed bottom and the one before exactly when they diverge.
   */
  lemma SignalInNumbers(bars: seq<Bar>, m: seq<Metric>, i: nat)
    requires 59 <= i < |bars| && |m| == |bars|
    ensures
      var s := DetectTo(bars, m, |bars|).0[i];
      && s.date == bars[i].date && s.close == bars[i].close
      && (RsiPersistence in s.states <==> m[i].rsi <= 30.0 && m[i - 1].rsi <= 30.0 && m[i - 2].rsi <= 30.0)
      && (MacdContraction in s.states <==>
            0.0 > m[i].hist > m[i - 1].hist > m[i - 2].hist > m[i - 3].hist && bars[i].close < m[i].ma20)
      && (s.pivotDate.Some? <==> s.priorPivot.Some?)
      && (s.pivotDate.Some? <==> StrengthDiverges(bars, m, i - 2) || AveragesDiverge(bars, m, i - 2))
      && (forall q :: s.pivotDate.Some? && Nearest(bars, i - 2, q) ==>
            s.pivotDate == Some(bars[i - 2].date) && s.priorPivot == Some(bars[q].date))
  {
    hide DetectTo, Detect, Persistent, Contracting, Reenters, IsLow, Diverges, Divergences, PriorPivot, Remembers,
      Nearest, IsPrior, StrengthDiverges, AveragesDiverge;
    var c := DayIs(bars, m, i);
    ShownOn(bars, m, i, c);
    DivergenceMeans(bars, m, i, c, RsiDivergence);
    DivergenceMeans(bars, m, i, c, MacdDivergence);
    DivergesIff(bars, m, i - 2, RsiDivergence);
    DivergesIff(bars, m, i - 2, MacdDivergence);
    OnlyDivergences(bars, m, i - 2, PriorPivot(c.pivots, i - 2));
    SomeMember(DivergencesOn(bars, m, i, c));
    StatesOn(Persistent(m, i), Contracting(bars, m, i), Reenters(bars, m, i), DivergencesOn(bars, m, i, c));
    StatesAre(bars, m, i);
    PriorFound(bars, m, i, c);
    var s := DetectTo(bars, m, |bars|).0[i];
    forall q | s.pivotDate.Some? && Nearest(bars, i - 2, q)
      ensures s.pivotDate == Some(bars[i - 2].date) && 0 <= q < |bars| && s.priorPivot == Some(bars[q].date)
    {
      NearestIsPrior(bars, i - 2, q);
      assert PriorPivot(c.pivots, i - 2) == Some(q);
    }
  }

  lemma StatesAre(bars: seq<Bar>, m: seq<Metric>, i: nat)
    requires 59 <= i < |bars| && |m| == |bars|
    ensures Persistent(m, i) <==> m[i].rsi <= 30.0 && m[i - 1].rsi <= 30.0 && m[i - 2].rsi <= 30.0
    ensures Contracting(bars, m, i) <==>
      0.0 > m[i].hist > m[i - 1].hist > m[i - 2].hist > m[i - 3].hist && bars[i].close < m[i].ma20
  {
  }

  lemma SomeMember(events: seq<Event>)
    requires forall e :: e in events ==> e == RsiDivergence || e == MacdDivergence
    ensures events != [] <==> RsiDivergence in events || MacdDivergence in events
  {
    if events != [] {
      assert events[0] in events;
    }
  }

  lemma StatesOn(persistence: bool, contraction: bool, reentry: bool, divergences: seq<Event>)
    requires forall e :: e in divergences ==> e == RsiDivergence || e == MacdDivergence
    ensures var states := On(persistence, RsiPersistence) + On(contraction, MacdContraction)
        + On(reentry, BollingerReentry) + divergences;
      (RsiPersistence in states <==> persistence) && (MacdContraction in states <==> contraction)
  {
  }

  lemma ShownOn(bars: seq<Bar>, m: seq<Metric>, i: nat, c: Carry)
    requires 59 <= i < |bars| && |m| == |bars| && ValidPivots(c.pivots, i)
    ensures var s, found := Detect(bars, m, i, c).0, DivergencesOn(bars, m, i, c);
      && s.date == bars[i].date && s.close == bars[i].close
      && s.states == On(Persistent(m, i), RsiPersistence) + On(Contracting(bars, m, i), MacdContraction)
        + On(Reenters(bars, m, i), BollingerReentry) + found
      && (s.pivotDate.Some? <==> found != []) && (s.priorPivot.Some? <==> found != [])
      && (found != [] ==>
            && PriorPivot(c.pivots, i - 2).Some? && s.pivotDate == Some(bars[i - 2].date)
            && s.priorPivot == Some(bars[PriorPivot(c.pivots, i - 2).value].date))
  {
    hide Persistent, Contracting, Reenters, IsLow, PriorPivot, Divergences, On;
  }
}
