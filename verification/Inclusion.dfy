/**
  Inclusion merging of internal/chanlun/chanlun.go: a bar that contains its neighbour, or is
  contained by it, is folded into it. Times are instants as integers, 0 the zero time.
*/
module Inclusion {
  import opened Money

  datatype Bar = Bar(time: int, open: real, high: real, low: real, close: real, volume: real, rawBars: int)

  datatype Fault = InvalidNumber | InvalidPrices | OutOfOrder

  // ---------- validate ----------

  predicate Numbers(b: Bar) {
    b.open >= 0.0 && b.high >= 0.0 && b.low >= 0.0 && b.close >= 0.0 && b.volume >= 0.0
  }

  predicate Prices(b: Bar) {
    0.0 < b.low && Max(b.open, b.close) <= b.high && b.low <= Min(b.open, b.close)
  }

  ghost predicate Sane(bars: seq<Bar>) {
    forall i :: 0 <= i < |bars| ==> Numbers(bars[i]) && Prices(bars[i])
  }

  ghost predicate Ascending(bars: seq<Bar>) {
    forall i, j :: 0 <= i < j < |bars| ==> bars[i].time < bars[j].time
  }

  /** A bar at the zero time is followed by a later bar. */
  ghost predicate ZeroIsFollowed(bars: seq<Bar>) {
    forall i :: 0 <= i < |bars| - 1 && bars[i].time == 0 ==> 0 < bars[i + 1].time
  }

  datatype Verdict = Fine | Wrong(at: nat, fault: Fault)

  /** The latest time the check remembers before bar `n`. */
  function Remembered(bars: seq<Bar>, n: nat): int
    requires n <= |bars|
  {
    if n == 0 then 0
    else if n == 1 || bars[n - 1].time > Remembered(bars, n - 1) then bars[n - 1].time
    else Remembered(bars, n - 1)
  }

  /** What is wrong with bar `i`; the order is not checked while the zero time is remembered. */
  function FaultAt(bars: seq<Bar>, i: nat): Verdict
    requires i < |bars|
  {
    if !Numbers(bars[i]) then Wrong(i, InvalidNumber)
    else if !Prices(bars[i]) then Wrong(i, InvalidPrices)
    else if Remembered(bars, i) != 0 && bars[i].time <= Remembered(bars, i) then Wrong(i, OutOfOrder)
    else Fine
  }

  ghost predicate Accepts(bars: seq<Bar>) {
    forall i :: 0 <= i < |bars| ==> FaultAt(bars, i) == Fine
  }

  method Validate(bars: seq<Bar>) returns (v: Verdict)
    ensures v == Fine <==> Accepts(bars)
    ensures v.Wrong? ==> v.at < |bars| && v == FaultAt(bars, v.at) && forall i :: 0 <= i < v.at ==>
      FaultAt(bars, i) == Fine
  {
    var previous := 0;
    for i := 0 to |bars|
      invariant previous == Remembered(bars, i)
      invariant forall k :: 0 <= k < i ==> FaultAt(bars, k) == Fine
    {
      var bar := bars[i];
      if !Numbers(bar) {
        assert FaultAt(bars, i) == Wrong(i, InvalidNumber);
        return Wrong(i, InvalidNumber);
      }
      if !Prices(bar) {
        assert FaultAt(bars, i) == Wrong(i, InvalidPrices);
        return Wrong(i, InvalidPrices);
      }
      if previous != 0 && bar.time <= previous {
        assert FaultAt(bars, i) == Wrong(i, OutOfOrder);
        return Wrong(i, OutOfOrder);
      }
      if i == 0 || bar.time > previous {
        previous := bar.time;
      }
    }
    return Fine;
  }

  lemma {:induction false} OrderedUpTo(bars: seq<Bar>, n: nat)
    requires Accepts(bars) && ZeroIsFollowed(bars) && n <= |bars|
    ensures Ascending(bars[..n]) && (n > 0 ==> Remembered(bars, n) == bars[n - 1].time)
  {
    if n > 0 {
      OrderedUpTo(bars, n - 1);
      assert FaultAt(bars, n - 1) == Fine;
      assert forall k :: 0 <= k < n - 1 ==> bars[..n][k] == bars[..n - 1][k];
    }
  }

  lemma {:induction false} RemembersLatest(bars: seq<Bar>, n: nat)
    requires Ascending(bars) && n <= |bars|
    ensures Remembered(bars, n) == if n == 0 then 0 else bars[n - 1].time
  {
    if n > 0 {
      RemembersLatest(bars, n - 1);
    }
  }

  /**
    Sane bars in strict order are accepted. What is accepted is sane, and in strict order exactly
    when every bar at the zero time is followed by a later one.
  */
  lemma AcceptedIsOrderedIff(bars: seq<Bar>)
    ensures Sane(bars) && Ascending(bars) ==> Accepts(bars)
    ensures Accepts(bars) ==> Sane(bars) && (Ascending(bars) <==> ZeroIsFollowed(bars))
  {
    if Ascending(bars) {
      forall i | 0 <= i < |bars| ensures Remembered(bars, i) == if i == 0 then 0 else bars[i - 1].time {
        RemembersLatest(bars, i);
      }
    }
    if Accepts(bars) {
      forall i | 0 <= i < |bars| ensures Numbers(bars[i]) && Prices(bars[i]) {
        assert FaultAt(bars, i) == Fine;
      }
      if ZeroIsFollowed(bars) {
        OrderedUpTo(bars, |bars|);
        assert bars[..|bars|] == bars;
      }
    }
  }

  /** Two bars at the zero time pass the check without being in order. */
  lemma ZeroTimesPass()
    ensures exists bars: seq<Bar> :: Accepts(bars) && !Ascending(bars)
  {
    var b := Bar(0, 1.0, 1.0, 1.0, 1.0, 0.0, 1);
    var bars := [b, b];
    assert Remembered(bars, 1) == 0;
    assert bars[0].time == bars[1].time;
    assert Accepts(bars) && !Ascending(bars);
  }

  // ---------- mergeInclusions ----------

  function Direction(previous: Bar, last: Bar, fallback: int): int {
    if previous.high < last.high then 1
    else if previous.high > last.high then -1
    else if previous.low < last.low then 1
    else if previous.low > last.low then -1
    else if fallback != 0 then fallback
    else 1
  }

  predicate Included(last: Bar, bar: Bar) {
    (last.high <= bar.high && last.low >= bar.low) || (last.high >= bar.high && last.low <= bar.low)
  }

  function Merged(last: Bar, bar: Bar, direction: int): Bar {
    var base := last.(rawBars := last.rawBars + bar.rawBars, volume := last.volume + bar.volume, close := bar.close);
    if direction > 0 then
      base.(high := Max(last.high, bar.high), low := Max(last.low, bar.low),
        time := if bar.high > last.high then bar.time else last.time)
    else
      base.(high := Min(last.high, bar.high), low := Min(last.low, bar.low),
        time := if bar.low < last.low then bar.time else last.time)
  }

  function Counted(source: Bar): Bar {
    if source.rawBars <= 0 then source.(rawBars := 1) else source
  }

  datatype Merging = Merging(out: seq<Bar>, direction: int)

  function Absorb(s: Merging, source: Bar): Merging {
    var bar, n := Counted(source), |s.out|;
    if n < 2 then s.(out := s.out + [bar])
    else
      var direction := Direction(s.out[n - 2], s.out[n - 1], s.direction);
      if Included(s.out[n - 1], bar) then Merging(s.out[..n - 1] + [Merged(s.out[n - 1], bar, direction)], direction)
      else Merging(s.out + [bar], direction)
  }

  function MergeTo(bars: seq<Bar>, n: nat): Merging
    requires n <= |bars|
  {
    if n == 0 then Merging([], 0) else Absorb(MergeTo(bars, n - 1), bars[n - 1])
  }

  lemma MergeStep(bars: seq<Bar>, i: nat)
    requires i < |bars|
    ensures MergeTo(bars, i + 1) == Absorb(MergeTo(bars, i), bars[i])
  {
  }

  function Merge(bars: seq<Bar>): seq<Bar> {
    MergeTo(bars, |bars|).out
  }

  method MergeInclusions(bars: seq<Bar>) returns (out: seq<Bar>)
    ensures out == Merge(bars)
  {
    out := [];
    var lastDirection := 0;
    for i := 0 to |bars|
      invariant Merging(out, lastDirection) == MergeTo(bars, i)
    {
      hide MergeTo, Direction, Included, Merged;
      assert MergeTo(bars, i + 1) == Absorb(MergeTo(bars, i), bars[i]) by {
        MergeStep(bars, i);
      }
      var bar := bars[i];
      if bar.rawBars <= 0 {
        bar := bar.(rawBars := 1);
      }
      if |out| < 2 {
        out := out + [bar];
        continue;
      }
      var previous, last := out[|out| - 2], out[|out| - 1];
      var direction := Direction(previous, last, lastDirection);
      lastDirection := direction;
      if !Included(last, bar) {
        out := out + [bar];
        continue;
      }
      var merged := MergeBar(last, bar, direction);
      out := out[..|out| - 1] + [merged];
    }
  }

  /** The part of the loop that folds a bar into the last one. */
  method MergeBar(last: Bar, bar: Bar, direction: int) returns (merged: Bar)
    ensures merged == Merged(last, bar, direction)
  {
    merged := last.(rawBars := last.rawBars + bar.rawBars, volume := last.volume + bar.volume, close := bar.close);
    if direction > 0 {
      merged := merged.(high := Max(last.high, bar.high), low := Max(last.low, bar.low));
      if bar.high > last.high {
        merged := merged.(time := bar.time);
      }
    } else {
      merged := merged.(high := Min(last.high, bar.high), low := Min(last.low, bar.low));
      if bar.low < last.low {
        merged := merged.(time := bar.time);
      }
    }
  }

  // ---------- What merging keeps ----------

  function Volume(bars: seq<Bar>): real {
    if |bars| == 0 then 0.0 else Volume(bars[..|bars| - 1]) + bars[|bars| - 1].volume
  }

  function RawBars(bars: seq<Bar>): int {
    if |bars| == 0 then 0 else RawBars(bars[..|bars| - 1]) + Counted(bars[|bars| - 1]).rawBars
  }

  /** The later bar is strictly higher in both its high and its low. */
  predicate Rises(left: Bar, right: Bar) {
    left.high < right.high && left.low < right.low
  }

  predicate Falls(left: Bar, right: Bar) {
    left.high > right.high && left.low > right.low
  }

  /** From the second bar on, neighbours are ordered one way or the other, in both prices. */
  ghost predicate Stepped(bars: seq<Bar>) {
    forall i :: 1 <= i < |bars| - 1 ==> Rises(bars[i], bars[i + 1]) || Falls(bars[i], bars[i + 1])
  }

  ghost predicate CountedAll(bars: seq<Bar>) {
    forall i :: 0 <= i < |bars| ==> bars[i].rawBars >= 1 && bars[i].low <= bars[i].high
  }

  lemma CountedIs(source: Bar)
    ensures Counted(source).rawBars >= 1 && Counted(source).volume == source.volume
  {
  }

  lemma MergedTotals(last: Bar, bar: Bar, direction: int)
    ensures var m := Merged(last, bar, direction);
      m.volume == last.volume + bar.volume && m.rawBars == last.rawBars + bar.rawBars && m.close == bar.close
  {
  }

  lemma LastCounts(bars: seq<Bar>, b: Bar)
    ensures Volume(bars + [b]) == Volume(bars) + b.volume
    ensures b.rawBars >= 1 ==> RawBars(bars + [b]) == RawBars(bars) + b.rawBars
  {
    assert (bars + [b])[..|bars|] == bars;
  }

  lemma AbsorbKeepsTotals(s: Merging, source: Bar)
    requires CountedAll(s.out)
    ensures Volume(Absorb(s, source).out) == Volume(s.out) + source.volume
    ensures RawBars(Absorb(s, source).out) == RawBars(s.out) + Counted(source).rawBars
  {
    hide Included, Direction, Merged, Counted, Volume, RawBars;
    var n, r, bar := |s.out|, Absorb(s, source).out, Counted(source);
    CountedIs(source);
    if |r| == n {
      MergedTotals(s.out[n - 1], bar, Absorb(s, source).direction);
      LastCounts(s.out[..n - 1], s.out[n - 1]);
      LastCounts(s.out[..n - 1], r[n - 1]);
      assert s.out == s.out[..n - 1] + [s.out[n - 1]] && r == s.out[..n - 1] + [r[n - 1]];
    } else {
      LastCounts(s.out, bar);
    }
  }

  lemma AbsorbKeepsSteps(s: Merging, source: Bar)
    requires Stepped(s.out) && CountedAll(s.out) && source.low <= source.high
    ensures Stepped(Absorb(s, source).out) && CountedAll(Absorb(s, source).out)
  {
    var n, r := |s.out|, Absorb(s, source).out;
    if n >= 3 {
      assert Rises(s.out[n - 2], s.out[n - 1]) || Falls(s.out[n - 2], s.out[n - 1]);
    }
    forall i | 1 <= i < |r| - 1 ensures Rises(r[i], r[i + 1]) || Falls(r[i], r[i + 1]) {
      if i + 1 < n {
        assert Rises(s.out[i], s.out[i + 1]) || Falls(s.out[i], s.out[i + 1]);
      }
    }
  }

  lemma AbsorbKeepsTimes(s: Merging, source: Bar)
    requires Ascending(s.out) && forall i :: 0 <= i < |s.out| ==> s.out[i].time < source.time
    ensures Ascending(Absorb(s, source).out)
    ensures var r := Absorb(s, source).out; r[|r| - 1].close == source.close && forall i :: 0 <= i < |r| ==>
      r[i].time <= source.time
  {
    hide Included, Direction;
  }

  /**
    Nothing is lost in the merging: source bars and volume are all accounted for, the last close is
    the source's, and from the second merged bar on the neighbours are strictly ordered.
  */
  lemma {:induction false} MergeConserves(bars: seq<Bar>, n: nat)
    requires n <= |bars| && Sane(bars)
    ensures var out := MergeTo(bars, n).out;
      && Volume(out) == Volume(bars[..n]) && RawBars(out) == RawBars(bars[..n])
      && Stepped(out) && CountedAll(out)
  {
    hide Absorb, Stepped, CountedAll;
    if n == 0 {
      assert bars[..0] == [];
      EmptyIsStepped();
    } else {
      MergeConserves(bars, n - 1);
      var s := MergeTo(bars, n - 1);
      assert Numbers(bars[n - 1]) && Prices(bars[n - 1]);
      AbsorbKeepsTotals(s, bars[n - 1]);
      AbsorbKeepsSteps(s, bars[n - 1]);
      assert bars[..n][..n - 1] == bars[..n - 1];
    }
  }

  lemma EmptyIsStepped()
    ensures Stepped([]) && CountedAll([])
  {
  }

  /** Merged times strictly increase, and never run ahead of the bars absorbed. */
  lemma {:induction false} MergeKeepsTimes(bars: seq<Bar>, n: nat)
    requires n <= |bars| && Ascending(bars)
    ensures var out := MergeTo(bars, n).out;
      && Ascending(out)
      && (n > 0 ==> |out| > 0 && out[|out| - 1].close == bars[n - 1].close)
      && (forall i :: 0 <= i < |out| ==> n > 0 && out[i].time <= bars[n - 1].time)
  {
    hide Absorb;
    if n == 0 {
    } else {
      MergeKeepsTimes(bars, n - 1);
      var s := MergeTo(bars, n - 1);
      assert forall i :: 0 <= i < |s.out| ==> s.out[i].time < bars[n - 1].time;
      AbsorbKeepsTimes(s, bars[n - 1]);
      AbsorbIsNotEmpty(s, bars[n - 1]);
    }
  }

  lemma AbsorbIsNotEmpty(s: Merging, source: Bar)
    ensures |Absorb(s, source).out| > 0
  {
  }
}
