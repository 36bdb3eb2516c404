/** What the trailing baseline forecasts, in the bars it looks back on. */
module BaselineLaws {
  import opened Money
  import opened Market
  import opened Sorting
  import opened Calibration
  import opened Baseline
  import opened Labels
  import Ranks

  predicate PairAt(bars: seq<Bar>, i: nat)
    requires 1 <= i < |bars|
  {
    PricedBar(bars[i - 1]) && PricedBar(bars[i])
  }

  /** The bars that count: priced, and following a priced one. */
  function Paired(bars: seq<Bar>, n: nat): set<nat>
    requires n <= |bars|
  {
    set i: nat | 1 <= i < n && PairAt(bars, i)
  }

  function MoveOf(log: real -> real, bars: seq<Bar>, i: nat, high: bool): real
    requires 1 <= i < |bars| && bars[i - 1].close > 0.0
  {
    log((if high then bars[i].high else bars[i].low) / bars[i - 1].close)
  }

  /** The counting bars whose high, or low, lies at most `y` above the close before, as a logarithm. */
  function PairedAtMost(log: real -> real, bars: seq<Bar>, n: nat, high: bool, y: real): set<nat>
    requires n <= |bars|
  {
    set i: nat | i in Paired(bars, n) && MoveOf(log, bars, i, high) <= y
  }

  function MovesOf(log: real -> real, bars: seq<Bar>, n: nat, high: bool): seq<real>
    requires 1 <= n <= |bars|
  {
    if high then Highs(log, bars, n) else Lows(log, bars, n)
  }

  lemma PairedStep(log: real -> real, bars: seq<Bar>, n: nat, high: bool, y: real)
    requires 2 <= n <= |bars|
    ensures var all, part := Paired(bars, n - 1), PairedAtMost(log, bars, n - 1, high, y);
      var counts := PairAt(bars, n - 1);
      && n - 1 !in all && n - 1 !in part
      && Paired(bars, n) == (if counts then all + {n - 1} else all)
      && PairedAtMost(log, bars, n, high, y)
        == (if counts && MoveOf(log, bars, n - 1, high) <= y then part + {n - 1} else part)
  {
    hide PricedBar, MoveOf;
    forall i | 1 <= i < |bars| && PairAt(bars, i) ensures bars[i - 1].close > 0.0 {
      PricedCloses(bars[i - 1]);
    }
  }

  lemma PricedCloses(b: Bar)
    ensures PricedBar(b) ==> b.close > 0.0
  {
  }

  lemma MovesStep(log: real -> real, bars: seq<Bar>, n: nat, high: bool)
    requires 2 <= n <= |bars|
    ensures var counts := PairAt(bars, n - 1);
      counts ==> bars[n - 2].close > 0.0
    ensures MovesOf(log, bars, n, high) == MovesOf(log, bars, n - 1, high)
      + (if PairAt(bars, n - 1) then [MoveOf(log, bars, n - 1, high)] else [])
  {
    hide PricedBar, ValidBar;
    ValidIsPriced(bars[n - 2]);
    ValidIsPriced(bars[n - 1]);
    PricedCloses(bars[n - 2]);
  }

  lemma NoMoves(log: real -> real, bars: seq<Bar>, high: bool, y: real)
    requires |bars| >= 1
    ensures Paired(bars, 1) == {} && PairedAtMost(log, bars, 1, high, y) == {}
    ensures MovesOf(log, bars, 1, high) == [] && CountAtMost([], y) == 0
  {
  }

  /** As many moves of a window are at most `y` as counting bars are. */
  lemma {:induction false} MovesCount(log: real -> real, bars: seq<Bar>, n: nat, high: bool, y: real)
    requires 1 <= n <= |bars|
    ensures |MovesOf(log, bars, n, high)| == |Paired(bars, n)|
    ensures CountAtMost(MovesOf(log, bars, n, high), y) == |PairedAtMost(log, bars, n, high, y)|
  {
    hide Paired, PairedAtMost, MovesOf, MoveOf, CountAtMost, PricedBar;
    if n == 1 {
      NoMoves(log, bars, high, y);
    } else {
      MovesCount(log, bars, n - 1, high, y);
      PairedStep(log, bars, n, high, y);
      MovesStep(log, bars, n, high);
      if PairAt(bars, n - 1) {
        Ranks.CountOfAppended(MovesOf(log, bars, n - 1, high), MoveOf(log, bars, n - 1, high), y);
      } else {
        assert MovesOf(log, bars, n, high) == MovesOf(log, bars, n - 1, high);
      }
    }
  }

  /** A quantile of the moves is at most `y` exactly when that share of the counting bars moved at most `y`. */
  lemma MovesRank(log: real -> real, bars: seq<Bar>, high: bool, q: real, y: real)
    requires |bars| >= 1 && 0.0 < q < 1.0 && Paired(bars, |bars|) != {}
    ensures Quantile(MovesOf(log, bars, |bars|, high), q) <= y
      <==> |PairedAtMost(log, bars, |bars|, high, y)| as real >= q * |Paired(bars, |bars|)| as real
  {
    hide Quantile, MovesOf, Paired, PairedAtMost, CountAtMost;
    MovesCount(log, bars, |bars|, high, y);
    QuantileRank(MovesOf(log, bars, |bars|, high), q, y);
  }

  /** The last sixty bars, or all when there are fewer. */
  function LastSixty(bars: seq<Bar>): seq<Bar> {
    if |bars| <= 60 then bars else bars[|bars| - 60..]
  }

  /** The price that the close reaches by a quantile of the moves. */
  function Moved(exp: real -> real, log: real -> real, bars: seq<Bar>, high: bool, q: real): real
    requires |bars| >= 1
  {
    Times(bars[|bars| - 1].close, exp(Quantile(MovesOf(log, bars, |bars|, high), q)))
  }

  /** An estimate between two prices of the same window. */
  ghost predicate Spans(e: Estimate, point: real, lower: real, upper: real) {
    && e.point == point
    && e.quantiles == [QuantilePrice(0.1, lower), QuantilePrice(0.5, point), QuantilePrice(0.9, upper)]
    && e.interval == Some(Interval(lower, upper, 0.8, "trailing_quantile_60"))
  }

  /**
   * The baseline looks at the last sixty bars. With fewer than twenty, with fewer than nineteen that count, or with a
   * low point that is not positive there is none. Its high is the last close moved by the median high, and no less than
   * that close; its low is the close moved by the median low, and no more than the high; the bands are moved by the
   * 10% and 90% quantiles.
   */
  lemma BaselineIs(exp: real -> real, log: real -> real, through: seq<Bar>)
    ensures var bars, r := LastSixty(through), Forecasted(exp, log, through);
      && (|bars| < 20 ==> r == None)
      && (|bars| >= 20 ==>
            var close := bars[|bars| - 1].close;
            var mid := Moved(exp, log, bars, true, 0.5);
            var high := if mid < close then close else mid;
            var lowMid := Moved(exp, log, bars, false, 0.5);
            var low := if high < lowMid then high else lowMid;
            && (r.Some? <==> |Paired(bars, |bars|)| >= 19 && low > 0.0)
            && (r.Some? ==>
                  && Spans(r.value.high, high, Moved(exp, log, bars, true, 0.1), Moved(exp, log, bars, true, 0.9))
                  && Spans(r.value.low, low, Moved(exp, log, bars, false, 0.1), Moved(exp, log, bars, false, 0.9))))
  {
    hide Quantile, Highs, Lows, Paired, Times;
    var bars := LastSixty(through);
    if |bars| >= 20 {
      MovesCount(log, bars, |bars|, true, 0.0);
    }
  }
}
