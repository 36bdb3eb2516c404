/** Causal bottom signals: what each day's close shows, from the bars up to that day. */
module Signals {
  import opened Market

  const WARMUP: nat := 60

  datatype Event = RsiPersistence | MacdContraction | BollingerReentry | RsiDivergence | MacdDivergence

  /** What a search rule asks of the recent events. */
  datatype Rule = Single(event: Event) | Any | MacdOrBollinger | RsiOrBollinger | RecentConfluence | MacdAndBollinger

  datatype Signal = Signal(
    date: int,
    close: real,
    events: seq<Event>,
    states: seq<Event>,
    pivotDate: Option<int>,
    priorPivot: Option<int>)

  datatype Score = Score(rsi14: real, dif: real, dea: real, ma20: real)

  /** The indicator library, as an unknown function of the bars it is shown, and the square root. */
  datatype Indicators = Indicators(score: seq<Bar> -> Option<Score>, sqrt: real -> real)

  datatype Metric = Metric(rsi: real, dif: real, hist: real, ma20: real, lower: real)

  const NO_METRIC := Metric(0.0, 0.0, 0.0, 0.0, 0.0)

  function SquaredDeviations(bars: seq<Bar>, mean: real): real {
    if bars == [] then 0.0 else
      var last := bars[|bars| - 1];
      SquaredDeviations(bars[..|bars| - 1], mean) + (last.close - mean) * (last.close - mean)
  }

  /** The metric of the last of the given bars. */
  function MetricOf(ind: Indicators, bars: seq<Bar>): Option<Metric>
    requires |bars| >= 20
  {
    match ind.score(bars)
    case None => None
    case Some(m) =>
      var variance := SquaredDeviations(bars[|bars| - 20..], m.ma20);
      Some(Metric(m.rsi14, m.dif, 2.0 * (m.dif - m.dea), m.ma20, m.ma20 - 2.0 * ind.sqrt(variance / 20.0)))
  }

  /** The metrics of the first `n` bars; the first 34 days have none. */
  function Metrics(ind: Indicators, bars: seq<Bar>, n: nat): (r: Option<seq<Metric>>)
    requires n <= |bars|
    ensures r.Some? ==> |r.value| == n
  {
    if n == 0 then Some([]) else
      match Metrics(ind, bars, n - 1)
      case None => None
      case Some(rest) =>
        if n - 1 < 34 then Some(rest + [NO_METRIC]) else
          match MetricOf(ind, bars[..n])
          case None => None
          case Some(m) => Some(rest + [m])
  }

  /** What the detection carries from day to day. */
  datatype Carry = Carry(pivots: seq<int>, persistence: bool, contraction: bool)

  predicate Persistent(metrics: seq<Metric>, i: int)
    requires 2 <= i < |metrics|
  {
    metrics[i].rsi <= 30.0 && metrics[i - 1].rsi <= 30.0 && metrics[i - 2].rsi <= 30.0
  }

  predicate Contracting(bars: seq<Bar>, metrics: seq<Metric>, i: int)
    requires 3 <= i < |metrics| && i < |bars|
  {
    && metrics[i].hist < 0.0
    && metrics[i].hist > metrics[i - 1].hist > metrics[i - 2].hist > metrics[i - 3].hist
    && bars[i].close < metrics[i].ma20
  }

  predicate Reenters(bars: seq<Bar>, metrics: seq<Metric>, i: int)
    requires 1 <= i < |metrics| && i < |bars|
  {
    bars[i - 1].close < metrics[i - 1].lower && bars[i].close >= metrics[i].lower
  }

  /** A low below its two neighbours on either side; known only two days later. */
  predicate IsLow(bars: seq<Bar>, p: int)
    requires 2 <= p && p + 2 < |bars|
  {
    bars[p].low < bars[p - 2].low && bars[p].low < bars[p - 1].low && bars[p].low < bars[p + 1].low
      && bars[p].low < bars[p + 2].low
  }

  /** The nearest earlier pivot at least five days back. */
  function PriorPivot(pivots: seq<int>, p: int): (q: Option<int>)
    ensures q.Some? ==> q.value in pivots && p - q.value >= 5
  {
    if pivots == [] then None
    else if p - pivots[|pivots| - 1] < 5 then PriorPivot(pivots[..|pivots| - 1], p)
    else Some(pivots[|pivots| - 1])
  }

  function Divergences(bars: seq<Bar>, metrics: seq<Metric>, p: int, prior: Option<int>): (r: seq<Event>)
    requires 0 <= p < |bars| && p < |metrics|
    requires prior.Some? ==> 0 <= prior.value < p
    ensures r != [] ==> prior.Some?
  {
    if prior.None? || p - prior.value > 60 || bars[p].low > bars[prior.value].low * 0.995 then [] else
      var a, z := metrics[prior.value], metrics[p];
      (if a.rsi <= 45.0 && z.rsi <= 45.0 && z.rsi - a.rsi >= 3.0 then [RsiDivergence] else [])
      + (if a.dif < 0.0 && z.dif < 0.0 && z.dif > a.dif then [MacdDivergence] else [])
  }

  ghost predicate ValidPivots(pivots: seq<int>, i: int) {
    forall q :: q in pivots ==> 2 <= q < i - 2
  }

  function On(b: bool, e: Event): seq<Event> {
    if b then [e] else []
  }

  /** The signal of day `i` and what is carried on, from the bars and metrics up to day `i`. */
  function Detect(bars: seq<Bar>, metrics: seq<Metric>, i: int, c: Carry): (r: (Signal, Carry))
    requires 0 <= i < |bars| && i < |metrics| && ValidPivots(c.pivots, i)
    ensures ValidPivots(r.1.pivots, i + 1)
  {
    var quiet := Signal(bars[i].date, bars[i].close, [], [], None, None);
    if i < 37 then (quiet, c) else
      var persistence, contraction := Persistent(metrics, i), Contracting(bars, metrics, i);
      var p := i - 2;
      var low := IsLow(bars, p);
      var prior := PriorPivot(c.pivots, p);
      var divergences := if low then Divergences(bars, metrics, p, prior) else [];
      var events := On(persistence && !c.persistence, RsiPersistence)
        + On(contraction && !c.contraction, MacdContraction)
                    + On(Reenters(bars, metrics, i), BollingerReentry) + divergences;
      var states := On(persistence, RsiPersistence) + On(contraction, MacdContraction)
                    + On(Reenters(bars, metrics, i), BollingerReentry) + divergences;
      var named := if divergences != []
        then quiet.(pivotDate := Some(bars[p].date), priorPivot := Some(bars[prior.value].date)) else quiet;
      var signal := if i < WARMUP - 1 then named else named.(events := events, states := states);
      (signal, Carry(if low then c.pivots + [p] else c.pivots, persistence, contraction))
  }

  /** The signals of the first `n` days. */
  function DetectTo(bars: seq<Bar>, metrics: seq<Metric>, n: nat): (r: (seq<Signal>, Carry))
    requires n <= |bars| && n <= |metrics|
    ensures |r.0| == n && ValidPivots(r.1.pivots, n)
  {
    if n == 0 then ([], Carry([], false, false)) else
      var (signals, c) := DetectTo(bars, metrics, n - 1);
      var (signal, c') := Detect(bars, metrics, n - 1, c);
      (signals + [signal], c')
  }

  /** The signals of a whole history, unless an indicator fails. */
  function SignalsOf(ind: Indicators, bars: seq<Bar>): (r: Option<seq<Signal>>)
    ensures r.Some? ==> |r.value| == |bars|
  {
    match Metrics(ind, bars, |bars|)
    case None => None
    case Some(metrics) => Some(DetectTo(bars, metrics, |bars|).0)
  }

  // ---------- only the past counts ----------

  lemma {:induction false} MetricsPrefix(ind: Indicators, a: seq<Bar>, b: seq<Bar>, n: nat)
    requires n <= |a| && n <= |b| && a[..n] == b[..n]
    ensures Metrics(ind, a, n) == Metrics(ind, b, n)
  {
    if n > 0 {
      assert a[..n - 1] == a[..n][..n - 1] == b[..n][..n - 1] == b[..n - 1];
      MetricsPrefix(ind, a, b, n - 1);
    }
  }

  lemma {:induction false} MetricsShorter(ind: Indicators, bars: seq<Bar>, n: nat, m: nat)
    requires n <= m <= |bars| && Metrics(ind, bars, m).Some?
    ensures Metrics(ind, bars, n).Some? && Metrics(ind, bars, n).value == Metrics(ind, bars, m).value[..n]
    decreases m
  {
    if n < m {
      MetricsShorter(ind, bars, n, m - 1);
    }
  }

  lemma DetectPrefix(a: seq<Bar>, b: seq<Bar>, ma: seq<Metric>, mb: seq<Metric>, i: int, c: Carry)
    requires 0 <= i < |a| && i < |b| && i < |ma| && i < |mb| && ValidPivots(c.pivots, i)
    requires forall k :: 0 <= k <= i ==> a[k] == b[k] && ma[k] == mb[k]
    ensures Detect(a, ma, i, c) == Detect(b, mb, i, c)
  {
  }

  lemma {:induction false} DetectToPrefix(a: seq<Bar>, b: seq<Bar>, ma: seq<Metric>, mb: seq<Metric>, n: nat)
    requires n <= |a| && n <= |b| && n <= |ma| && n <= |mb|
    requires forall k :: 0 <= k < n ==> a[k] == b[k] && ma[k] == mb[k]
    ensures DetectTo(a, ma, n) == DetectTo(b, mb, n)
  {
    if n > 0 {
      DetectToPrefix(a, b, ma, mb, n - 1);
      DetectPrefix(a, b, ma, mb, n - 1, DetectTo(a, ma, n - 1).1);
    }
  }

  lemma {:induction false} DetectToShorter(bars: seq<Bar>, metrics: seq<Metric>, n: nat, m: nat)
    requires n <= m <= |bars| && m <= |metrics|
    ensures DetectTo(bars, metrics, n).0 == DetectTo(bars, metrics, m).0[..n]
    decreases m
  {
    if n < m {
      DetectToShorter(bars, metrics, n, m - 1);
    }
  }

  /** Detection is causal: histories that share their first `n` bars share their first `n` signals. */
  lemma SignalsAreCausal(ind: Indicators, a: seq<Bar>, b: seq<Bar>, n: nat)
    requires n <= |a| && n <= |b| && a[..n] == b[..n]
    requires SignalsOf(ind, a).Some? && SignalsOf(ind, b).Some?
    ensures SignalsOf(ind, a).value[..n] == SignalsOf(ind, b).value[..n]
  {
    var ma, mb := Metrics(ind, a, |a|).value, Metrics(ind, b, |b|).value;
    MetricsShorter(ind, a, n, |a|);
    MetricsShorter(ind, b, n, |b|);
    MetricsPrefix(ind, a, b, n);
    assert ma[..n] == mb[..n];
    forall k | 0 <= k < n ensures a[k] == b[k] && ma[k] == mb[k] {
      assert a[k] == a[..n][k] && b[k] == b[..n][k] && ma[k] == ma[..n][k] && mb[k] == mb[..n][k];
    }
    DetectToPrefix(a, b, ma, mb, n);
    DetectToShorter(a, ma, n, |a|);
    DetectToShorter(b, mb, n, |b|);
  }

  // ---------- the loops ----------

  method LocalLow(bars: seq<Bar>, p: int) returns (isLow: bool)
    requires 2 <= p && p + 2 < |bars|
    ensures isLow == IsLow(bars, p)
  {
    isLow := true;
    for j := p - 2 to p + 3
      invariant isLow <==> forall k :: p - 2 <= k < j && k != p ==> bars[p].low < bars[k].low
    {
      if j != p && bars[p].low >= bars[j].low {
        isLow := false;
      }
    }
  }

  method NearestPivot(pivots: seq<int>, p: int) returns (prior: Option<int>)
    ensures prior == PriorPivot(pivots, p)
  {
    var k := |pivots|;
    assert pivots[..k] == pivots;
    while k > 0 && p - pivots[k - 1] < 5
      invariant 0 <= k <= |pivots|
      invariant PriorPivot(pivots[..k], p) == PriorPivot(pivots, p)
    {
      assert pivots[..k][..k - 1] == pivots[..k - 1];
      k := k - 1;
    }
    return if k > 0 then Some(pivots[k - 1]) else None;
  }

  method PivotEvents(bars: seq<Bar>, metrics: seq<Metric>, pivots: seq<int>, p: int)
      returns (found: seq<Event>, prior: Option<int>)
    requires 0 <= p < |bars| && p < |metrics| && forall q :: q in pivots ==> 0 <= q < p
    ensures prior == PriorPivot(pivots, p)
    ensures found == Divergences(bars, metrics, p, prior)
  {
    found := [];
    prior := NearestPivot(pivots, p);
    if prior.Some? && p - prior.value <= 60 && bars[p].low <= bars[prior.value].low * 0.995 {
      var a, z := metrics[prior.value], metrics[p];
      if a.rsi <= 45.0 && z.rsi <= 45.0 && z.rsi - a.rsi >= 3.0 {
        found := found + [RsiDivergence];
      }
      if a.dif < 0.0 && z.dif < 0.0 && z.dif > a.dif {
        found := found + [MacdDivergence];
      }
    }
  }

  /** The states of day `i`, and the events of those that begin on it. */
  method DetectStates(bars: seq<Bar>, metrics: seq<Metric>, i: int, c: Carry)
    returns (events: seq<Event>, states: seq<Event>, persistence: bool, contraction: bool)
    requires 37 <= i < |bars| && i < |metrics|
    ensures persistence == Persistent(metrics, i) && contraction == Contracting(bars, metrics, i)
    ensures events == On(persistence && !c.persistence, RsiPersistence)
      + On(contraction && !c.contraction, MacdContraction) + On(Reenters(bars, metrics, i), BollingerReentry)
    ensures states == On(persistence, RsiPersistence) + On(contraction, MacdContraction)
      + On(Reenters(bars, metrics, i), BollingerReentry)
  {
    hide Persistent, Contracting, Reenters;
    events, states := [], [];
    persistence, contraction := Persistent(metrics, i), Contracting(bars, metrics, i);
    if persistence {
      states := states + [RsiPersistence];
      if !c.persistence {
        events := events + [RsiPersistence];
      }
    }
    if contraction {
      states := states + [MacdContraction];
      if !c.contraction {
        events := events + [MacdContraction];
      }
    }
    if Reenters(bars, metrics, i) {
      events, states := events + [BollingerReentry], states + [BollingerReentry];
    }
  }

  method DetectDay(bars: seq<Bar>, metrics: seq<Metric>, i: int, c: Carry) returns (s: Signal, next: Carry)
    requires 37 <= i < |bars| && i < |metrics| && ValidPivots(c.pivots, i)
    ensures (s, next) == Detect(bars, metrics, i, c)
  {
    hide Persistent, Contracting, Reenters, IsLow, Divergences, PriorPivot, On;
    var events, states, persistence, contraction := DetectStates(bars, metrics, i, c);
    s := Signal(bars[i].date, bars[i].close, events, states, None, None);
    var p := i - 2;
    var pivots := c.pivots;
    var found: seq<Event> := [];
    var isLow := LocalLow(bars, p);
    if isLow {
      var prior: Option<int>;
      found, prior := PivotEvents(bars, metrics, pivots, p);
      s := s.(events := s.events + found, states := s.states + found);
      if found != [] {
        s := s.(pivotDate := Some(bars[p].date), priorPivot := Some(bars[prior.value].date));
      }
      pivots := pivots + [p];
    }
    assert s.events == events + found && s.states == states + found;
    if i < WARMUP - 1 {
      s := s.(events := [], states := []);
    }
    next := Carry(pivots, persistence, contraction);
  }

  method DetectMetrics(bars: seq<Bar>, metrics: seq<Metric>) returns (out: seq<Signal>)
    requires |metrics| == |bars|
    ensures out == DetectTo(bars, metrics, |bars|).0
  {
    out := [];
    var c := Carry([], false, false);
    for i := 0 to |bars|
      invariant ValidPivots(c.pivots, i)
      invariant (out, c) == DetectTo(bars, metrics, i)
    {
      if i < 37 {
        out := out + [Signal(bars[i].date, bars[i].close, [], [], None, None)];
        continue;
      }
      var s, next := DetectDay(bars, metrics, i, c);
      out, c := out + [s], next;
    }
  }

  method DetectSignals(ind: Indicators, bars: seq<Bar>) returns (r: Option<seq<Signal>>)
    ensures r == SignalsOf(ind, bars)
  {
    var metrics := [];
    for i := 0 to |bars|
      invariant Metrics(ind, bars, i) == Some(metrics)
    {
      if i < 34 {
        metrics := metrics + [NO_METRIC];
        continue;
      }
      var m := ind.score(bars[..i + 1]);
      if m.None? {
        MetricsFail(ind, bars, i + 1, |bars|);
        return None;
      }
      var recent := bars[..i + 1][i + 1 - 20..];
      var variance := 0.0;
      for j := 0 to |recent|
        invariant variance == SquaredDeviations(recent[..j], m.value.ma20)
      {
        assert recent[..j + 1][..j] == recent[..j];
        variance := variance + (recent[j].close - m.value.ma20) * (recent[j].close - m.value.ma20);
      }
      assert recent[..|recent|] == recent;
      var x := m.value;
      metrics := metrics + [Metric(x.rsi14, x.dif, 2.0 * (x.dif - x.dea), x.ma20,
        x.ma20 - 2.0 * ind.sqrt(variance / 20.0))];
    }
    var signals := DetectMetrics(bars, metrics);
    return Some(signals);
  }

  lemma {:induction false} MetricsFail(ind: Indicators, bars: seq<Bar>, n: nat, m: nat)
    requires n <= m <= |bars| && Metrics(ind, bars, n).None?
    ensures Metrics(ind, bars, m).None?
    decreases m
  {
    if n < m {
      MetricsFail(ind, bars, n, m - 1);
    }
  }

  // ---------- what the events are ----------

  /** What is carried into day `n`: the lows confirmed so far, and the two states of the day before. */
  ghost predicate Remembers(bars: seq<Bar>, metrics: seq<Metric>, n: nat, c: Carry)
    requires n <= |bars| && n <= |metrics|
  {
    && (forall q :: q in c.pivots <==> 35 <= q < n - 2 && IsLow(bars, q))
    && (forall j, k :: 0 <= j < k < |c.pivots| ==> c.pivots[j] < c.pivots[k])
    && (n > 37 ==> (c.persistence <==> Persistent(metrics, n - 1)))
    && (n > 37 ==> (c.contraction <==> Contracting(bars, metrics, n - 1)))
    && (n <= 37 ==> c == Carry([], false, false))
  }

  lemma RemembersNext(bars: seq<Bar>, metrics: seq<Metric>, n: nat, c: Carry)
    requires n < |bars| && n < |metrics| && Remembers(bars, metrics, n, c) && ValidPivots(c.pivots, n)
    ensures Remembers(bars, metrics, n + 1, Detect(bars, metrics, n, c).1)
  {
    hide IsLow, Persistent, Contracting, Reenters, Divergences, PriorPivot;
    var next := Detect(bars, metrics, n, c).1;
    forall k | 0 <= k < |c.pivots| ensures c.pivots[k] < n - 2 {
      assert c.pivots[k] in c.pivots;
    }
    forall q ensures q in next.pivots <==> 35 <= q < n - 1 && IsLow(bars, q) {
    }
  }

  lemma {:induction false} DetectionRemembers(bars: seq<Bar>, metrics: seq<Metric>, n: nat)
    requires n <= |bars| && n <= |metrics|
    ensures Remembers(bars, metrics, n, DetectTo(bars, metrics, n).1)
  {
    hide Remembers, Detect;
    if n == 0 {
      NothingRemembered(bars, metrics);
    } else {
      DetectionRemembers(bars, metrics, n - 1);
      RemembersNext(bars, metrics, n - 1, DetectTo(bars, metrics, n - 1).1);
    }
  }

  lemma NothingRemembered(bars: seq<Bar>, metrics: seq<Metric>)
    ensures Remembers(bars, metrics, 0, Carry([], false, false))
  {
  }

  /** The latest confirmed low at least five days before. */
  ghost predicate IsPrior(bars: seq<Bar>, p: int, q: int)
    requires 2 <= p && p + 2 < |bars|
  {
    && 35 <= q <= p - 5 && IsLow(bars, q)
    && forall k :: q < k <= p - 5 ==> !IsLow(bars, k)
  }

  lemma {:induction false} PriorIsNearest(bars: seq<Bar>, pivots: seq<int>, p: int)
    requires forall j, k :: 0 <= j < k < |pivots| ==> pivots[j] < pivots[k]
    ensures PriorPivot(pivots, p).Some? ==>
      forall j :: 0 <= j < |pivots| && pivots[j] > PriorPivot(pivots, p).value ==> p - pivots[j] < 5
    ensures PriorPivot(pivots, p).None? ==> forall j :: 0 <= j < |pivots| ==> p - pivots[j] < 5
  {
    if pivots != [] {
      PriorIsNearest(bars, pivots[..|pivots| - 1], p);
    }
  }

  /** Low `p` diverges in `e` from the nearest low at least five days before it. */
  ghost predicate Diverges(bars: seq<Bar>, metrics: seq<Metric>, p: int, e: Event)
    requires 2 <= p && p + 2 < |bars| && p < |metrics|
  {
    && IsLow(bars, p)
    && exists q :: IsPrior(bars, p, q) && e in Divergences(bars, metrics, p, Some(q))
  }

  /**
    The events of a day after the warm-up: a state that begins on that day, a return into the band,
    or a divergence of the low confirmed on that day from the nearest earlier one.
  */
  lemma EventsMean(bars: seq<Bar>, metrics: seq<Metric>, i: nat)
    requires WARMUP - 1 <= i < |bars| && |metrics| == |bars|
    ensures
      var events := DetectTo(bars, metrics, |bars|).0[i].events;
      && (RsiPersistence in events <==> Persistent(metrics, i) && !Persistent(metrics, i - 1))
      && (MacdContraction in events <==> Contracting(bars, metrics, i) && !Contracting(bars, metrics, i - 1))
      && (BollingerReentry in events <==> Reenters(bars, metrics, i))
      && (RsiDivergence in events <==> Diverges(bars, metrics, i - 2, RsiDivergence))
      && (MacdDivergence in events <==> Diverges(bars, metrics, i - 2, MacdDivergence))
  {
    hide Detect, Persistent, Contracting, Reenters, IsLow, Diverges, Remembers;
    var c := DetectTo(bars, metrics, i).1;
    DetectionRemembers(bars, metrics, i);
    DetectToShorter(bars, metrics, i + 1, |bars|);
    assert DetectTo(bars, metrics, |bars|).0[i] == DetectTo(bars, metrics, i + 1).0[i] == Detect(bars, metrics, i, c).0;
    DayMeans(bars, metrics, i, c);
  }

  lemma DayMeans(bars: seq<Bar>, metrics: seq<Metric>, i: nat, c: Carry)
    requires WARMUP - 1 <= i < |bars| && |metrics| == |bars| && Remembers(bars, metrics, i, c)
      && ValidPivots(c.pivots, i)
    ensures
      var events := Detect(bars, metrics, i, c).0.events;
      && (RsiPersistence in events <==> Persistent(metrics, i) && !Persistent(metrics, i - 1))
      && (MacdContraction in events <==> Contracting(bars, metrics, i) && !Contracting(bars, metrics, i - 1))
      && (BollingerReentry in events <==> Reenters(bars, metrics, i))
      && (RsiDivergence in events <==> Diverges(bars, metrics, i - 2, RsiDivergence))
      && (MacdDivergence in events <==> Diverges(bars, metrics, i - 2, MacdDivergence))
  {
    hide Detect, Persistent, Contracting, Reenters, IsLow, PriorPivot, Diverges, Divergences, On;
    DivergenceMeans(bars, metrics, i, c, RsiDivergence);
    DivergenceMeans(bars, metrics, i, c, MacdDivergence);
    OnlyDivergences(bars, metrics, i - 2, PriorPivot(c.pivots, i - 2));
    EventsAre(bars, metrics, i, c);
    Named(Persistent(metrics, i) && !c.persistence, Contracting(bars, metrics, i)
      && !c.contraction, Reenters(bars, metrics, i),
          DivergencesOn(bars, metrics, i, c));
  }

  lemma EventsAre(bars: seq<Bar>, metrics: seq<Metric>, i: nat, c: Carry)
    requires WARMUP - 1 <= i < |bars| && |metrics| == |bars| && ValidPivots(c.pivots, i)
    ensures Detect(bars, metrics, i, c).0.events ==
      On(Persistent(metrics, i) && !c.persistence, RsiPersistence)
        + On(Contracting(bars, metrics, i) && !c.contraction, MacdContraction)
      + On(Reenters(bars, metrics, i), BollingerReentry) + DivergencesOn(bars, metrics, i, c)
  {
    hide Persistent, Contracting, Reenters, IsLow, PriorPivot, Divergences, On;
  }

  lemma Named(persistence: bool, contraction: bool, reentry: bool, divergences: seq<Event>)
    requires forall e :: e in divergences ==> e == RsiDivergence || e == MacdDivergence
    ensures
      var events := On(persistence, RsiPersistence) + On(contraction, MacdContraction) + On(reentry, BollingerReentry)
        + divergences;
      && (RsiPersistence in events <==> persistence) && (MacdContraction in events <==> contraction)
      && (BollingerReentry in events <==> reentry)
      && (RsiDivergence in events <==> RsiDivergence in divergences)
           && (MacdDivergence in events <==> MacdDivergence in divergences)
  {
  }

  /** The divergences of the low that day `i` confirms. */
  function DivergencesOn(bars: seq<Bar>, metrics: seq<Metric>, i: int, c: Carry): seq<Event>
    requires 37 <= i < |bars| && i < |metrics| && ValidPivots(c.pivots, i)
  {
    if IsLow(bars, i - 2) then Divergences(bars, metrics, i - 2, PriorPivot(c.pivots, i - 2)) else []
  }

  lemma OnlyDivergences(bars: seq<Bar>, metrics: seq<Metric>, p: int, prior: Option<int>)
    requires 0 <= p < |bars| && p < |metrics| && (prior.Some? ==> 0 <= prior.value < p)
    ensures forall e :: e in Divergences(bars, metrics, p, prior) ==> e == RsiDivergence || e == MacdDivergence
  {
  }

  lemma DivergenceMeans(bars: seq<Bar>, metrics: seq<Metric>, i: nat, c: Carry, e: Event)
    requires WARMUP - 1 <= i < |bars| && |metrics| == |bars| && Remembers(bars, metrics, i, c)
      && ValidPivots(c.pivots, i)
    ensures e in DivergencesOn(bars, metrics, i, c) <==> Diverges(bars, metrics, i - 2, e)
  {
    hide Persistent, Contracting, IsLow, PriorPivot, Divergences, Remembers;
    PriorFound(bars, metrics, i, c);
    var prior := PriorPivot(c.pivots, i - 2);
    if e in DivergencesOn(bars, metrics, i, c) {
      assert IsPrior(bars, i - 2, prior.value) && e in Divergences(bars, metrics, i - 2, Some(prior.value));
    }
  }

  /** The remembered pivot is the nearest low; without one there is none. */
  lemma PriorFound(bars: seq<Bar>, metrics: seq<Metric>, i: nat, c: Carry)
    requires WARMUP - 1 <= i < |bars| && |metrics| == |bars| && Remembers(bars, metrics, i, c)
    ensures var prior := PriorPivot(c.pivots, i - 2);
      && (prior.Some? ==> IsPrior(bars, i - 2, prior.value))
      && (forall q :: IsPrior(bars, i - 2, q) ==> prior == Some(q))
  {
    hide Persistent, Contracting, IsLow, PriorPivot;
    var p := i - 2;
    PriorIsNearest(bars, c.pivots, p);
    var prior := PriorPivot(c.pivots, p);
    if prior.Some? {
      forall k | prior.value < k <= p - 5 ensures !IsLow(bars, k) {
        assert IsLow(bars, k) ==> k in c.pivots;
      }
    }
    forall q | IsPrior(bars, p, q) ensures prior == Some(q) {
      assert q in c.pivots;
    }
  }
}
