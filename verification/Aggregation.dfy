/** `AggregateMinutes` of internal/market/intraday.go: five-minute bars folded into longer ones. */
module Aggregation {
  import opened Minutes
  import opened Money

  datatype MinuteBar = MinuteBar(end: Instant, open: real, high: real, low: real, close: real, volume: real,
      final: bool)

  /** A bar continued by a later one. */
  function Absorb(group: MinuteBar, b: MinuteBar): MinuteBar {
    group.(high := Max(group.high, b.high), low := Min(group.low, b.low), close := b.close,
      volume := group.volume + b.volume, final := group.final && b.final)
  }

  function Fold(bars: seq<MinuteBar>, i: nat, j: nat): MinuteBar
    requires i < j <= |bars|
  {
    if j == i + 1 then bars[i] else Absorb(Fold(bars, i, j - 1), bars[j - 1])
  }

  /** One bar for bars i to j - 1; final only when it is complete and all of them are. */
  function Summary(bars: seq<MinuteBar>, i: nat, j: nat, end: Instant, complete: bool): MinuteBar
    requires i < j <= |bars|
  {
    var group := Fold(bars, i, j);
    group.(end := end, final := group.final && complete)
  }

  /** The first bar at or after `j` that ends after the group. */
  function Stop(bars: seq<MinuteBar>, end: Instant, j: nat): (r: nat)
    requires j <= |bars|
    ensures j <= r <= |bars|
    ensures forall k :: j <= k < r ==> !bars[k].end.After(end)
    ensures r < |bars| ==> bars[r].end.After(end)
    decreases |bars| - j
  {
    if j == |bars| || bars[j].end.After(end) then j else Stop(bars, end, j + 1)
  }

  /** The bars start with the group's first five minutes and follow one another without a gap. */
  predicate Contiguous(bars: seq<MinuteBar>, period: int, i: nat, j: nat, end: Instant)
    requires i < j <= |bars|
  {
    && bars[i].end == end.Plus(5 - period)
    && forall k :: i < k < j ==> bars[k].end == bars[k - 1].end.Plus(5)
  }

  predicate Emits(bars: seq<MinuteBar>, period: int, observed: Instant, i: nat, j: nat, end: Instant)
    requires i < j <= |bars|
  {
    Contiguous(bars, period, i, j, end) && (j - i == Slots(period) || (j == |bars| && end.After(observed)))
  }

  /** What the loop still emits from bar `i` on. */
  function Scan(bars: seq<MinuteBar>, period: int, observed: Instant, i: nat): seq<MinuteBar>
    requires i <= |bars|
    decreases |bars| - i
  {
    if i == |bars| then []
    else if !InSession(bars[i].end, 5) then Scan(bars, period, observed, i + 1)
    else
      var end := GroupEnd(bars[i].end, period);
      var j := Stop(bars, end, i + 1);
      (if Emits(bars, period, observed, i, j, end) then [Summary(bars, i, j, end, j - i == Slots(period))] else [])
      + Scan(bars, period, observed, j)
  }

  function Aggregated(bars: seq<MinuteBar>, period: int, observed: Instant): seq<MinuteBar> {
    if !MinutePeriod(period) then [] else if period == 5 then bars else Scan(bars, period, observed, 0)
  }

  method AggregateMinutes(bars: seq<MinuteBar>, period: int, observed: Instant) returns (out: seq<MinuteBar>)
    ensures out == Aggregated(bars, period, observed)
  {
    hide InSession, GroupEnd, Absorb, Scan, Contiguous, Stop, Fold;
    out := [];
    if !MinutePeriod(period) {
      return;
    }
    if period == 5 {
      return bars;
    }
    var i := 0;
    while i < |bars|
      invariant i <= |bars|
      invariant out + Scan(bars, period, observed, i) == Scan(bars, period, observed, 0)
      decreases |bars| - i
    {
      ScanStep(bars, period, observed, i);
      var first := bars[i];
      if !InSession(first.end, 5) {
        i := i + 1;
        continue;
      }
      var end := GroupEnd(first.end, period);
      var group := first.(end := end);
      var valid := first.end == end.Plus(5 - period);
      var j := i + 1;
      ContiguousStart(bars, period, i, end);
      FoldStart(bars, i);
      while j < |bars| && !bars[j].end.After(end)
        invariant i < j <= |bars| && Stop(bars, end, j) == Stop(bars, end, i + 1)
        invariant group == Fold(bars, i, j).(end := end)
        invariant valid <==> Contiguous(bars, period, i, j, end)
      {
        var b := bars[j];
        valid := valid && b.end == bars[j - 1].end.Plus(5);
        StopStep(bars, end, j);
        FoldStep(bars, i, j, end);
        ContiguousStep(bars, period, i, j, end);
        group := Absorb(group, b);
        j := j + 1;
      }
      StopStep(bars, end, j);
      var complete := j - i == period / 5;
      if valid && (complete || (j == |bars| && end.After(observed))) {
        group := group.(final := group.final && complete);
        assert out + [group] + Scan(bars, period, observed, j) == out + ([group] + Scan(bars, period, observed, j));
        out := out + [group];
      }
      i := j;
    }
    ScanStep(bars, period, observed, |bars|);
  }

  /** Five-minute bars are passed on as they are; other periods than 5, 15, 30 and 60 give nothing. */
  lemma OwnPeriod(bars: seq<MinuteBar>, period: int, observed: Instant)
    ensures period == 5 ==> Aggregated(bars, period, observed) == bars
    ensures period != 5 && period != 15 && period != 30 && period != 60 ==> Aggregated(bars, period, observed) == []
  {
  }

  lemma ContiguousStart(bars: seq<MinuteBar>, period: int, i: nat, end: Instant)
    requires i < |bars|
    ensures Contiguous(bars, period, i, i + 1, end) <==> bars[i].end == end.Plus(5 - period)
  {
  }

  lemma ContiguousStep(bars: seq<MinuteBar>, period: int, i: nat, j: nat, end: Instant)
    requires i < j < |bars|
    ensures Contiguous(bars, period, i, j + 1, end) <==>
      Contiguous(bars, period, i, j, end) && bars[j].end == bars[j - 1].end.Plus(5)
  {
  }

  lemma StopStep(bars: seq<MinuteBar>, end: Instant, j: nat)
    requires j <= |bars|
    ensures Stop(bars, end, j) == if j == |bars| || bars[j].end.After(end) then j else Stop(bars, end, j + 1)
  {
  }

  lemma FoldStart(bars: seq<MinuteBar>, i: nat)
    requires i < |bars|
    ensures Fold(bars, i, i + 1) == bars[i]
  {
  }

  lemma FoldStep(bars: seq<MinuteBar>, i: nat, j: nat, end: Instant)
    requires i < j < |bars|
    ensures Absorb(Fold(bars, i, j).(end := end), bars[j]) == Fold(bars, i, j + 1).(end := end)
  {
  }

  lemma ScanStep(bars: seq<MinuteBar>, period: int, observed: Instant, i: nat)
    requires i <= |bars|
    ensures i == |bars| ==> Scan(bars, period, observed, i) == []
    ensures i < |bars| && !InSession(bars[i].end, 5) ==>
      Scan(bars, period, observed, i) == Scan(bars, period, observed, i + 1)
    ensures i < |bars| && InSession(bars[i].end, 5) ==>
      var end := GroupEnd(bars[i].end, period);
      var j := Stop(bars, end, i + 1);
      Scan(bars, period, observed, i) ==
      (if Emits(bars, period, observed, i, j, end) then [Summary(bars, i, j, end, j - i == Slots(period))] else [])
      + Scan(bars, period, observed, j)
  {
  }

  // ---------- The declarative grouping ----------

  /** Ordered five-minute bars of the trading sessions. */
  ghost predicate Regular(bars: seq<MinuteBar>) {
    && (forall k :: 0 <= k < |bars| ==> InSession(bars[k].end, 5))
    && (forall j, k :: 0 <= j < k < |bars| ==> bars[j].end.minute < bars[k].end.minute)
  }

  /** Bars i to j - 1 are exactly the bars of the group that ends at `end`. */
  ghost predicate IsGroup(bars: seq<MinuteBar>, period: int, i: nat, j: nat, end: Instant) {
    && i < j <= |bars|
    && forall k :: 0 <= k < |bars| ==> (i <= k < j <==> GroupEnd(bars[k].end, period) == end)
  }

  /** Bar `i` opens a group of its own. */
  ghost predicate Boundary(bars: seq<MinuteBar>, period: int, i: nat) {
    i < |bars| ==> forall k :: 0 <= k < i && k < |bars| ==>
      GroupEnd(bars[k].end, period) != GroupEnd(bars[i].end, period)
  }

  lemma StopEndsGroup(bars: seq<MinuteBar>, period: int, i: nat)
    requires MinutePeriod(period) && Regular(bars) && i < |bars| && Boundary(bars, period, i)
    ensures var end := GroupEnd(bars[i].end, period);
      var j := Stop(bars, end, i + 1);
      IsGroup(bars, period, i, j, end) && Boundary(bars, period, j)
  {
    hide GroupEnd, InSession;
    var end := GroupEnd(bars[i].end, period);
    var j := Stop(bars, end, i + 1);
    GroupEndIs(bars[i].end, period);
    forall k | 0 <= k < |bars| ensures i <= k < j <==> GroupEnd(bars[k].end, period) == end {
      if i < k {
        Clock(bars[k].end, 5);
        SameGroup(bars[i].end, bars[k].end, period);
      }
    }
    if j < |bars| {
      forall k | 0 <= k < j ensures GroupEnd(bars[k].end, period) != GroupEnd(bars[j].end, period) {
        if k < i {
          SameGroup(bars[k].end, bars[i].end, period);
          SameGroup(bars[i].end, bars[j].end, period);
        }
      }
    }
  }

  /** A bar of the output and the group it stands for. */
  ghost predicate Stands(bars: seq<MinuteBar>, period: int, observed: Instant, bar: MinuteBar, i: nat, j: nat) {
    && IsGroup(bars, period, i, j, bar.end)
    && Emits(bars, period, observed, i, j, bar.end)
    && bar == Summary(bars, i, j, bar.end, j - i == Slots(period))
  }

  ghost predicate StandsFrom(bars: seq<MinuteBar>, period: int, observed: Instant, bar: MinuteBar, from: nat) {
    exists i: nat, j: nat :: from <= i && Stands(bars, period, observed, bar, i, j)
  }

  ghost predicate Grounded(bars: seq<MinuteBar>, period: int, observed: Instant, out: seq<MinuteBar>, from: nat) {
    && (forall k :: 0 <= k < |out| ==> StandsFrom(bars, period, observed, out[k], from))
    && (forall k, l :: 0 <= k < l < |out| ==> out[k].end.minute < out[l].end.minute)
  }

  lemma GroundedLonger(bars: seq<MinuteBar>, period: int, observed: Instant, bar: MinuteBar, i: nat, j: nat,
      rest: seq<MinuteBar>)
    requires MinutePeriod(period) && Regular(bars)
    requires Stands(bars, period, observed, bar, i, j) && Grounded(bars, period, observed, rest, j)
    ensures Grounded(bars, period, observed, [bar] + rest, i)
  {
    hide Emits, GroupEnd, Summary, InSession;
    var out := [bar] + rest;
    forall k | 0 <= k < |out| ensures StandsFrom(bars, period, observed, out[k], i) {
      if k == 0 {
        assert Stands(bars, period, observed, out[0], i, j);
      } else {
        assert out[k] == rest[k - 1] && StandsFrom(bars, period, observed, rest[k - 1], j);
        var i': nat, j': nat :| j <= i' && Stands(bars, period, observed, rest[k - 1], i', j');
      }
    }
    forall k | 0 <= k < |rest| ensures bar.end.minute < rest[k].end.minute {
      assert StandsFrom(bars, period, observed, rest[k], j);
      var i': nat, j': nat :| j <= i' && Stands(bars, period, observed, rest[k], i', j');
      GroupEndIs(bars[i].end, period);
      GroupEndIs(bars[i'].end, period);
      SameGroup(bars[i].end, bars[i'].end, period);
    }
    forall k, l | 0 <= k < l < |out| ensures out[k].end.minute < out[l].end.minute {
      assert out[l] == rest[l - 1] && (k > 0 ==> out[k] == rest[k - 1]);
    }
  }

  lemma GroundedEarlier(bars: seq<MinuteBar>, period: int, observed: Instant, out: seq<MinuteBar>, from: nat,
      earlier: nat)
    requires earlier <= from && Grounded(bars, period, observed, out, from)
    ensures Grounded(bars, period, observed, out, earlier)
  {
    forall k | 0 <= k < |out| ensures StandsFrom(bars, period, observed, out[k], earlier) {
      assert StandsFrom(bars, period, observed, out[k], from);
      var i: nat, j: nat :| from <= i && Stands(bars, period, observed, out[k], i, j);
    }
  }

  /** Every bar of the output stands for one whole group, and the output is in order. */
  lemma {:induction false} ScanIsGrounded(bars: seq<MinuteBar>, period: int, observed: Instant, i: nat)
    requires MinutePeriod(period) && Regular(bars) && i <= |bars| && Boundary(bars, period, i)
    ensures Grounded(bars, period, observed, Scan(bars, period, observed, i), i)
    decreases |bars| - i
  {
    hide Scan, Emits, GroupEnd, Summary, InSession, Boundary, Stop;
    ScanStep(bars, period, observed, i);
    if i < |bars| {
      assert InSession(bars[i].end, 5);
      var end := GroupEnd(bars[i].end, period);
      var j := Stop(bars, end, i + 1);
      StopEndsGroup(bars, period, i);
      ScanIsGrounded(bars, period, observed, j);
      GroundedEarlier(bars, period, observed, Scan(bars, period, observed, j), j, i);
      if Emits(bars, period, observed, i, j, end) {
        SummaryEnd(bars, i, j, end, j - i == Slots(period));
        GroundedLonger(bars, period, observed, Summary(bars, i, j, end, j - i == Slots(period)), i, j,
          Scan(bars, period, observed, j));
      }
    }
  }

  lemma SummaryEnd(bars: seq<MinuteBar>, i: nat, j: nat, end: Instant, complete: bool)
    requires i < j <= |bars|
    ensures Summary(bars, i, j, end, complete).end == end
  {
  }

  /** Every group that qualifies is in the output. */
  lemma {:induction false} ScanMissesNothing(bars: seq<MinuteBar>, period: int, observed: Instant, from: nat, i: nat,
      j: nat, end: Instant)
    requires MinutePeriod(period) && Regular(bars) && from <= i && Boundary(bars, period, from)
    requires IsGroup(bars, period, i, j, end) && Emits(bars, period, observed, i, j, end)
    ensures Summary(bars, i, j, end, j - i == Slots(period)) in Scan(bars, period, observed, from)
    decreases |bars| - from
  {
    hide Scan, Emits, GroupEnd, Summary, InSession, Boundary, Stop;
    ScanStep(bars, period, observed, from);
    assert InSession(bars[from].end, 5);
    var e := GroupEnd(bars[from].end, period);
    var stop := Stop(bars, e, from + 1);
    StopEndsGroup(bars, period, from);
    if i < stop {
      assert e == end && from == i && stop == j by {
        assert GroupEnd(bars[i].end, period) == e;
        assert GroupEnd(bars[from].end, period) == end;
        assert j < |bars| ==> GroupEnd(bars[j].end, period) != e;
        assert stop < |bars| ==> GroupEnd(bars[stop].end, period) != e;
      }
    } else {
      ScanMissesNothing(bars, period, observed, stop, i, j, end);
    }
  }

  // ---------- Complete groups ----------

  lemma {:induction false} FiveApart(bars: seq<MinuteBar>, period: int, i: nat, j: nat, k: nat, end: Instant)
    requires MinutePeriod(period) && Regular(bars) && IsGroup(bars, period, i, j, end) && i <= k < j
    ensures bars[i].end.minute + 5 * (k - i) <= bars[k].end.minute <= end.minute - 5 * (j - 1 - k)
    ensures (end.minute - bars[k].end.minute) % 5 == 0 && bars[k].end.rest == end.rest == 0
    decreases j - k, k - i
  {
    hide GroupEnd, InSession;
    InGroup(bars, period, i, j, k, end);
    UpFrom(bars, period, i, j, i, k, end);
    UpFrom(bars, period, i, j, k, j - 1, end);
    InGroup(bars, period, i, j, j - 1, end);
  }

  lemma InGroup(bars: seq<MinuteBar>, period: int, i: nat, j: nat, k: nat, end: Instant)
    requires MinutePeriod(period) && Regular(bars) && IsGroup(bars, period, i, j, end) && i <= k < j
    ensures end.minute - period < bars[k].end.minute <= end.minute
    ensures (end.minute - bars[k].end.minute) % 5 == 0 && bars[k].end.rest == end.rest == 0
  {
    hide GroupEnd, InSession;
    GroupEndIs(bars[k].end, period);
    Clock(bars[k].end, 5);
  }

  lemma {:induction false} UpFrom(bars: seq<MinuteBar>, period: int, i: nat, j: nat, a: nat, k: nat, end: Instant)
    requires MinutePeriod(period) && Regular(bars) && IsGroup(bars, period, i, j, end) && i <= a <= k < j
    ensures bars[a].end.minute + 5 * (k - a) <= bars[k].end.minute
    decreases k - a
  {
    hide GroupEnd, InSession, IsGroup;
    Fits(bars, period, i, j, end);
    if a < k {
      UpFrom(bars, period, i, j, a, k - 1, end);
      InGroup(bars, period, i, j, k - 1, end);
      InGroup(bars, period, i, j, k, end);
      assert (bars[k].end.minute - bars[k - 1].end.minute) % 5 == 0;
    }
  }

  /** A group is complete exactly when it has a bar for every slot; then nothing is missing in it. */
  lemma FullGroupIsContiguous(bars: seq<MinuteBar>, period: int, i: nat, j: nat, end: Instant)
    requires MinutePeriod(period) && Regular(bars) && IsGroup(bars, period, i, j, end)
    ensures j - i <= Slots(period)
    ensures j - i == Slots(period) ==> Contiguous(bars, period, i, j, end) && bars[j - 1].end == end
  {
    hide GroupEnd, InSession, IsGroup;
    assert i < j <= |bars| by { Fits(bars, period, i, j, end); }
    assert period == 5 * Slots(period);
    forall k | i <= k < j ensures bars[i].end.minute + 5 * (k - i) <= bars[k].end.minute
      <= end.minute - 5 * (j - 1 - k) && bars[k].end.rest == end.rest == 0 {
      FiveApart(bars, period, i, j, k, end);
    }
    InGroup(bars, period, i, j, i, end);
    if j - i == Slots(period) {
      assert (end.minute - bars[i].end.minute) % 5 == 0;
      forall k | i <= k < j ensures bars[k].end == Instant(end.minute - 5 * (j - 1 - k), 0) {
      }
    }
  }

  lemma Fits(bars: seq<MinuteBar>, period: int, i: nat, j: nat, end: Instant)
    requires IsGroup(bars, period, i, j, end)
    ensures i < j <= |bars|
  {
  }

  /**
    The output on regular bars: in order, one bar for each group that is complete or is the
    gap-free start of the last one still open, and nothing else.
  */
  lemma AggregateRefinesGrouping(bars: seq<MinuteBar>, period: int, observed: Instant)
    requires (period == 15 || period == 30 || period == 60) && Regular(bars)
    ensures var out := Aggregated(bars, period, observed);
      && Grounded(bars, period, observed, out, 0)
      && (forall i: nat, j: nat, end :: IsGroup(bars, period, i, j, end) && j - i == Slots(period) ==>
            Summary(bars, i, j, end, true) in out)
      && (forall i: nat, end ::
            IsGroup(bars, period, i, |bars|, end) && Contiguous(bars, period, i, |bars|, end) && end.After(observed) ==>
            Summary(bars, i, |bars|, end, |bars| - i == Slots(period)) in out)
  {
    hide Scan, GroupEnd, InSession, Contiguous, Summary;
    assert Boundary(bars, period, 0);
    ScanIsGrounded(bars, period, observed, 0);
    forall i: nat, j: nat, end | IsGroup(bars, period, i, j, end) && j - i == Slots(period)
      ensures Summary(bars, i, j, end, true) in Scan(bars, period, observed, 0)
    {
      Fits(bars, period, i, j, end);
      FullGroupIsContiguous(bars, period, i, j, end);
      ScanMissesNothing(bars, period, observed, 0, i, j, end);
    }
    forall i: nat, end | IsGroup(bars, period, i, |bars|, end) && Contiguous(bars, period, i, |bars|, end)
      && end.After(observed)
      ensures Summary(bars, i, |bars|, end, |bars| - i == Slots(period)) in Scan(bars, period, observed, 0)
    {
      Fits(bars, period, i, |bars|, end);
      ScanMissesNothing(bars, period, observed, 0, i, |bars|, end);
    }
  }

  lemma LastGroupIsLatest(bars: seq<MinuteBar>, period: int, i: nat, end: Instant, i': nat, j': nat, end': Instant)
    requires MinutePeriod(period) && Regular(bars)
    requires IsGroup(bars, period, i, |bars|, end) && IsGroup(bars, period, i', j', end')
    ensures end'.minute <= end.minute
  {
    hide GroupEnd, InSession;
    assert GroupEnd(bars[i].end, period) == end && GroupEnd(bars[i'].end, period) == end';
    if i' < i {
      SameGroup(bars[i'].end, bars[i].end, period);
    }
  }

  /** A partial bar is never final and only the last bar of the output can be one. */
  lemma OnlyLastIsPartial(bars: seq<MinuteBar>, period: int, observed: Instant, k: nat, i: nat, j: nat)
    requires (period == 15 || period == 30 || period == 60) && Regular(bars)
    requires k < |Aggregated(bars, period, observed)|
    requires Stands(bars, period, observed, Aggregated(bars, period, observed)[k], i, j) && j - i != Slots(period)
    ensures var out := Aggregated(bars, period, observed);
      k == |out| - 1 && !out[k].final && out[k].end.After(observed)
  {
    hide Aggregated, GroupEnd, InSession, Contiguous;
    var out := Aggregated(bars, period, observed);
    AggregateRefinesGrouping(bars, period, observed);
    if k < |out| - 1 {
      assert StandsFrom(bars, period, observed, out[k + 1], 0);
      var i': nat, j': nat :| Stands(bars, period, observed, out[k + 1], i', j');
      LastGroupIsLatest(bars, period, i, out[k].end, i', j', out[k + 1].end);
    }
  }

  // ---------- Hours from quarters ----------

  lemma {:induction false} FoldSplits(bars: seq<MinuteBar>, i: nat, m: nat, j: nat)
    requires i < m < j <= |bars|
    ensures Fold(bars, i, j) == Absorb(Fold(bars, i, m), Fold(bars, m, j))
    decreases j
  {
    hide Max, Min;
    if m + 1 < j {
      FoldSplits(bars, i, m, j - 1);
      AbsorbIsAssociative(Fold(bars, i, m), Fold(bars, m, j - 1), bars[j - 1]);
    }
  }

  lemma AbsorbIsAssociative(a: MinuteBar, b: MinuteBar, c: MinuteBar)
    ensures Absorb(Absorb(a, b), c) == Absorb(a, Absorb(b, c))
  {
  }

  /** Quarter `q` of a complete hour is a complete group of its own. */
  lemma QuarterIsGroup(bars: seq<MinuteBar>, i: nat, end: Instant, q: nat)
    requires Regular(bars) && q < 4 && IsGroup(bars, 60, i, i + 12, end)
    ensures IsGroup(bars, 15, i + 3 * q, i + 3 * q + 3, end.Plus(15 * q - 45))
  {
    hide GroupEnd, InSession;
    var e := end.Plus(15 * q - 45);
    forall k | i <= k < i + 12 ensures GroupEnd(bars[k].end, 15) == end.Plus(-15 * ((i + 11 - k) / 3)) {
      FiveApart(bars, 60, i, i + 12, k, end);
      InGroup(bars, 60, i, i + 12, i, end);
      QuarterEnd(bars[k].end, end, i + 11 - k);
    }
    assert GroupEnd(bars[i + 3 * q + 2].end, 15) == e;
    forall k | 0 <= k < |bars| ensures i + 3 * q <= k < i + 3 * q + 3 <==> GroupEnd(bars[k].end, 15) == e {
      GroupsNest(bars[k].end);
      GroupsNest(bars[i + 3 * q + 2].end);
      if GroupEnd(bars[k].end, 15) == e {
        assert GroupEnd(bars[k].end, 60) == end;
        assert (i + 11 - k) / 3 == 3 - q;
      }
    }
  }

  /** The bar of quarter `q`. */
  function Quarter(bars: seq<MinuteBar>, i: nat, end: Instant, q: nat): MinuteBar
    requires q < 4 && i + 12 <= |bars|
  {
    Summary(bars, i + 3 * q, i + 3 * q + 3, end.Plus(15 * q - 45), true)
  }

  lemma TwelveAreFourThrees(bars: seq<MinuteBar>, i: nat)
    requires i + 12 <= |bars|
    ensures Fold(bars, i, i + 12)
         == Absorb(Absorb(Absorb(Fold(bars, i, i + 3), Fold(bars, i + 3, i + 6)), Fold(bars, i + 6, i + 9)),
           Fold(bars, i + 9, i + 12))
  {
    hide Fold, Absorb;
    FoldSplits(bars, i, i + 9, i + 12);
    FoldSplits(bars, i, i + 6, i + 9);
    FoldSplits(bars, i, i + 3, i + 6);
  }

  lemma HourIsFourQuarters(bars: seq<MinuteBar>, i: nat, end: Instant)
    requires i + 12 <= |bars|
    ensures Summary(bars, i, i + 12, end, true)
         == Absorb(Absorb(Absorb(Quarter(bars, i, end, 0), Quarter(bars, i, end, 1)), Quarter(bars, i, end, 2)),
                   Quarter(bars, i, end, 3)).(end := end)
  {
    hide Fold, Max, Min;
    TwelveAreFourThrees(bars, i);
  }

  /**
    Each complete hour is the fold of four complete quarters, all four in the quarter-hour output,
    and it is final when they are.
  */
  lemma HourFromQuarters(bars: seq<MinuteBar>, observed: Instant, i: nat, end: Instant)
    requires Regular(bars) && IsGroup(bars, 60, i, i + 12, end)
    ensures
      var hour := Summary(bars, i, i + 12, end, true);
      && hour in Aggregated(bars, 60, observed)
      && (forall q :: 0 <= q < 4 ==> Quarter(bars, i, end, q) in Aggregated(bars, 15, observed))
      && hour == Absorb(Absorb(Absorb(Quarter(bars, i, end, 0), Quarter(bars, i, end, 1)), Quarter(bars, i, end, 2)),
                        Quarter(bars, i, end, 3)).(end := end)
  {
    hide Aggregated, GroupEnd, InSession, Summary, Absorb;
    Fits(bars, 60, i, i + 12, end);
    AggregateRefinesGrouping(bars, 60, observed);
    AggregateRefinesGrouping(bars, 15, observed);
    forall q | 0 <= q < 4 ensures Quarter(bars, i, end, q) in Aggregated(bars, 15, observed) {
      QuarterIsGroup(bars, i, end, q);
    }
    HourIsFourQuarters(bars, i, end);
  }

  // ---------- What a folded bar says ----------

  function VolumeOf(bars: seq<MinuteBar>, i: nat, j: nat): real
    requires i < j <= |bars|
  {
    if j == i + 1 then bars[i].volume else VolumeOf(bars, i, j - 1) + bars[j - 1].volume
  }

  /** First open, greatest high, least low, last close, summed volume, final when all are. */
  lemma {:induction false} FoldMeans(bars: seq<MinuteBar>, i: nat, j: nat)
    requires i < j <= |bars|
    ensures var f := Fold(bars, i, j);
      && f.open == bars[i].open && f.close == bars[j - 1].close && f.volume == VolumeOf(bars, i, j)
      && (forall k :: i <= k < j ==> bars[k].high <= f.high && f.low <= bars[k].low)
      && (exists k :: i <= k < j && bars[k].high == f.high)
      && (exists k :: i <= k < j && bars[k].low == f.low)
      && (f.final <==> forall k :: i <= k < j ==> bars[k].final)
    decreases j
  {
    if j == i + 1 {
      assert bars[i].high == Fold(bars, i, j).high && bars[i].low == Fold(bars, i, j).low;
    } else {
      FoldMeans(bars, i, j - 1);
      var before, f := Fold(bars, i, j - 1), Fold(bars, i, j);
      var h :| i <= h < j - 1 && bars[h].high == before.high;
      var l :| i <= l < j - 1 && bars[l].low == before.low;
      assert bars[h].high == f.high || bars[j - 1].high == f.high;
      assert bars[l].low == f.low || bars[j - 1].low == f.low;
    }
  }

  const LARGEST: real := 1000000000000.0

  predicate Plausible(x: real) {
    0.0 <= x <= LARGEST
  }

  /** Day 0 is a Thursday. */
  predicate Weekend(t: Instant) {
    var weekday := (t.minute / 1440 + 4) % 7;
    weekday == 0 || weekday == 6
  }

  /** Day 2, the first Saturday, and the day after it are a weekend, and so is every seventh day from either. */
  lemma WeekendIs(t: Instant)
    ensures Weekend(t) <==> (t.minute / 1440 - 2) % 7 <= 1
  {
  }

  /** What validation asks of one bar of a history of the given period. */
  predicate ValidBar(b: MinuteBar, period: int, fetchedAt: Instant) {
    && InSession(b.end, period) && !b.end.After(fetchedAt.Plus(5)) && !Weekend(b.end)
    && Plausible(b.open) && Plausible(b.high) && Plausible(b.low) && Plausible(b.close) && Plausible(b.volume)
    && 0.0 < b.low && Max(b.open, b.close) <= b.high && b.low <= Min(b.open, b.close)
    && !(b.final && b.end.After(fetchedAt))
  }

  predicate ValidPrices(b: MinuteBar) {
    && Plausible(b.open) && Plausible(b.high) && Plausible(b.low) && Plausible(b.close) && 0.0 <= b.volume
    && 0.0 < b.low && Max(b.open, b.close) <= b.high && b.low <= Min(b.open, b.close)
  }

  lemma ValidBarIs(b: MinuteBar, period: int, fetchedAt: Instant)
    ensures ValidBar(b, period, fetchedAt) <==>
      && InSession(b.end, period) && !b.end.After(fetchedAt.Plus(5)) && !Weekend(b.end)
      && ValidPrices(b) && b.volume <= LARGEST && !(b.final && b.end.After(fetchedAt))
  {
  }

  lemma {:induction false} FoldKeepsPrices(bars: seq<MinuteBar>, i: nat, j: nat)
    requires i < j <= |bars| && forall b :: i <= b < j ==> ValidPrices(bars[b])
    ensures ValidPrices(Fold(bars, i, j))
    decreases j
  {
    if j > i + 1 {
      FoldKeepsPrices(bars, i, j - 1);
      AbsorbKeepsPrices(Fold(bars, i, j - 1), bars[j - 1]);
    }
  }

  lemma AbsorbKeepsPrices(a: MinuteBar, b: MinuteBar)
    requires ValidPrices(a) && ValidPrices(b)
    ensures ValidPrices(Absorb(a, b))
  {
  }

  /** A complete group of final bars. */
  ghost predicate FinalGroup(bars: seq<MinuteBar>, period: int, i: nat, j: nat, end: Instant) {
    IsGroup(bars, period, i, j, end) && j - i == Slots(period) && forall k :: i <= k < j ==> bars[k].final
  }

  /** Every final bar of the output stands for a complete group of final bars. */
  lemma FinalBarsAreFinalGroups(bars: seq<MinuteBar>, period: int, observed: Instant, k: nat) returns (i: nat, j: nat)
    requires (period == 15 || period == 30 || period == 60) && Regular(bars)
    requires k < |Aggregated(bars, period, observed)| && Aggregated(bars, period, observed)[k].final
    ensures var bar := Aggregated(bars, period, observed)[k];
      FinalGroup(bars, period, i, j, bar.end) && bar == Summary(bars, i, j, bar.end, true)
  {
    hide Aggregated, GroupEnd, InSession, Fold;
    AggregateRefinesGrouping(bars, period, observed);
    var bar := Aggregated(bars, period, observed)[k];
    assert StandsFrom(bars, period, observed, bar, 0);
    i, j :| Stands(bars, period, observed, bar, i, j);
    FoldMeans(bars, i, j);
  }

  /**
    A complete group of valid final bars gives a valid bar exactly when its volumes add up to no more than the limit.
  */
  lemma FinalBarIsValidIff(
      bars: seq<MinuteBar>, period: int, observed: Instant, fetchedAt: Instant, i: nat, j: nat, end: Instant)
    requires (period == 15 || period == 30 || period == 60) && Regular(bars)
    requires forall b :: 0 <= b < |bars| ==> ValidBar(bars[b], 5, fetchedAt)
    requires FinalGroup(bars, period, i, j, end)
    ensures var bar := Summary(bars, i, j, end, true);
      && bar in Aggregated(bars, period, observed) && bar.final
      && (ValidBar(bar, period, fetchedAt) <==> VolumeOf(bars, i, j) <= LARGEST)
  {
    hide Aggregated, GroupEnd, InSession, Fold, Weekend, ValidBar, ValidPrices, VolumeOf;
    AggregateRefinesGrouping(bars, period, observed);
    var bar := Summary(bars, i, j, end, true);
    forall b | 0 <= b < |bars| ensures ValidPrices(bars[b]) {
      ValidBarIs(bars[b], 5, fetchedAt);
    }
    FoldKeepsPrices(bars, i, j);
    FoldMeans(bars, i, j);
    SamePrices(Fold(bars, i, j), bar);
    FullGroupIsContiguous(bars, period, i, j, end);
    ValidBarIs(bars[j - 1], 5, fetchedAt);
    GroupEndIs(bars[i].end, period);
    GroupEndIs(bars[j - 1].end, period);
    SameDay(bars[j - 1].end, end);
    ValidBarIs(bar, period, fetchedAt);
  }

  /** Three busy five minutes of the first quarter of a Thursday. */
  function BusyBars(): (bars: seq<MinuteBar>)
    ensures |bars| == 3
  {
    seq(3, k => MinuteBar(Instant(575 + 5 * k, 0), 10.0, 11.0, 9.0, 10.0, 500000000000.0, true))
  }

  lemma BusyBarIsFine(minute: int)
    requires minute == 575 || minute == 580 || minute == 585
    ensures var t := Instant(minute, 0);
      && InSession(t, 5) && GroupEnd(t, 15) == Instant(585, 0)
      && ValidBar(MinuteBar(t, 10.0, 11.0, 9.0, 10.0, 500000000000.0, true), 5, Instant(600, 0))
  {
    hide GroupEnd, InSession, ValidBar;
    BusyBarInSession(minute);
    ValidBarIs(MinuteBar(Instant(minute, 0), 10.0, 11.0, 9.0, 10.0, 500000000000.0, true), 5, Instant(600, 0));
  }

  lemma BusyBarInSession(minute: int)
    requires minute == 575 || minute == 580 || minute == 585
    ensures InSession(Instant(minute, 0), 5) && GroupEnd(Instant(minute, 0), 15) == Instant(585, 0)
  {
  }

  lemma BusyBarsAreFine()
    ensures Regular(BusyBars())
    ensures forall b :: 0 <= b < 3 ==> ValidBar(BusyBars()[b], 5, Instant(600, 0))
    ensures FinalGroup(BusyBars(), 15, 0, 3, Instant(585, 0))
    ensures VolumeOf(BusyBars(), 0, 3) == 1500000000000.0
  {
    hide InSession, GroupEnd, ValidBar, VolumeOf;
    forall k | 0 <= k < 3
      ensures InSession(BusyBars()[k].end, 5) && ValidBar(BusyBars()[k], 5, Instant(600, 0))
      ensures GroupEnd(BusyBars()[k].end, 15) == Instant(585, 0)
    {
      BusyBarIsFine(575 + 5 * k);
    }
    VolumeStep(BusyBars(), 0, 1);
    VolumeStep(BusyBars(), 0, 2);
  }

  lemma VolumeStep(bars: seq<MinuteBar>, i: nat, j: nat)
    requires i < j < |bars|
    ensures VolumeOf(bars, i, i + 1) == bars[i].volume
    ensures VolumeOf(bars, i, j + 1) == VolumeOf(bars, i, j) + bars[j].volume
  {
  }

  /** It happens: three valid bars whose complete, final quarter of an hour fails the validation of its own series. */
  lemma BusyQuarterIsRefused(observed: Instant)
    ensures var bars, quarter := BusyBars(), Summary(BusyBars(), 0, 3, Instant(585, 0), true);
      && Regular(bars) && (forall b :: 0 <= b < |bars| ==> ValidBar(bars[b], 5, Instant(600, 0)))
      && quarter in Aggregated(bars, 15, observed) && quarter.final
      && !ValidBar(quarter, 15, Instant(600, 0))
  {
    hide ValidBar, Aggregated, FinalGroup, Regular, Summary;
    BusyBarsAreFine();
    FinalBarIsValidIff(BusyBars(), 15, observed, Instant(600, 0), 0, 3, Instant(585, 0));
  }

  lemma SamePrices(a: MinuteBar, b: MinuteBar)
    requires b == a.(end := b.end, final := b.final)
    ensures ValidPrices(a) <==> ValidPrices(b)
  {
  }

  lemma SameDay(t: Instant, u: Instant)
    requires t.minute / 1440 == u.minute / 1440
    ensures Weekend(t) == Weekend(u)
  {
  }
}
