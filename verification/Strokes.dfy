/** Strokes of internal/chanlun/chanlun.go: from a fractal to the most extreme opposite one it reaches. */
module Strokes {
  import opened Inclusion
  import opened Money
  import opened Fractals
  import Market

  datatype Direction = Up | Down

  datatype Stroke = Stroke(direction: Direction, start: Fractal, end: Fractal, high: real, low: real, mergedBars: int,
      finished: bool)

  // ---------- Where a stroke ends ----------

  /** The candidate is beyond the start on the start's own side: it ends the search. */
  predicate Breaks(first: Fractal, c: Fractal) {
    first.index < c.index && c.mark == first.mark && MoreExtreme(c, first)
  }

  /** An opposite fractal after the start, on the far side of its price. */
  predicate Eligible(first: Fractal, c: Fractal) {
    && first.index < c.index && c.mark != first.mark
    && (if first.mark == Bottom then first.price < c.price else c.price < first.price)
  }

  /** `c` lies further from the start than `d`. */
  predicate Further(first: Fractal, c: Fractal, d: Fractal) {
    if first.mark == Bottom then c.high > d.high else c.low < d.low
  }

  /** How many candidates come before the start is broken. */
  function Reach(first: Fractal, candidates: seq<Fractal>): (r: nat)
    ensures r <= |candidates|
    ensures forall k :: 0 <= k < r ==> !Breaks(first, candidates[k])
    ensures r < |candidates| ==> Breaks(first, candidates[r])
  {
    if |candidates| == 0 || Breaks(first, candidates[0]) then 0 else 1 + Reach(first, candidates[1..])
  }

  /** The furthest eligible candidate of the first `n`, the earliest of equals. */
  function Furthest(first: Fractal, candidates: seq<Fractal>, n: nat): (r: Market.Option<nat>)
    requires n <= |candidates|
    ensures r.Some? ==> r.value < n
  {
    if n == 0 then Market.None
    else
      var best := Furthest(first, candidates, n - 1);
      if !Eligible(first, candidates[n - 1]) then best
      else if best.None? || Further(first, candidates[n - 1], candidates[best.value]) then Market.Some(n - 1)
      else best
  }

  function EndOf(first: Fractal, candidates: seq<Fractal>): Market.Option<nat> {
    Furthest(first, candidates, Reach(first, candidates))
  }

  /** The end is eligible, none before the break lies further, and the ones before it are nearer. */
  lemma {:induction false} FurthestIsExtreme(first: Fractal, candidates: seq<Fractal>, n: nat)
    requires n <= |candidates|
    ensures var e := Furthest(first, candidates, n);
      && (e.None? <==> forall k :: 0 <= k < n ==> !Eligible(first, candidates[k]))
      && (e.Some? ==>
            && Eligible(first, candidates[e.value])
            && (forall k :: 0 <= k < n && Eligible(first, candidates[k]) ==>
                 !Further(first, candidates[k], candidates[e.value]))
            && (forall k :: 0 <= k < e.value && Eligible(first, candidates[k]) ==>
                 Further(first, candidates[e.value], candidates[k])))
  {
    hide Eligible;
    if n > 0 {
      FurthestIsExtreme(first, candidates, n - 1);
    }
  }

  method SelectStrokeEnd(first: Fractal, candidates: seq<Fractal>) returns (end: Market.Option<Fractal>)
    ensures end == (var e := EndOf(first, candidates); if e.None? then Market.None
      else Market.Some(candidates[e.value]))
  {
    end := Market.None;
    ghost var reach := Reach(first, candidates);
    for i := 0 to |candidates|
      invariant i <= reach
      invariant end == (var e := Furthest(first, candidates, i); if e.None? then Market.None
        else Market.Some(candidates[e.value]))
    {
      var c := candidates[i];
      if c.index <= first.index {
        assert !Breaks(first, c);
        continue;
      }
      if c.mark == first.mark {
        if (first.mark == Bottom && c.low < first.low) || (first.mark == Top && c.high > first.high) {
          assert Breaks(first, candidates[i]);
          return;
        }
        continue;
      }
      assert !Breaks(first, candidates[i]);
      if (first.mark == Bottom && c.price <= first.price) || (first.mark == Top && c.price >= first.price) {
        continue;
      }
      if end.None? || (first.mark == Bottom && c.high > end.value.high)
        || (first.mark == Top && c.low < end.value.low) {
        end := Market.Some(c);
      }
    }
  }

  // ---------- Which pairs become strokes ----------

  predicate Contains(a: Fractal, b: Fractal) {
    (a.high > b.high && a.low < b.low) || (a.high < b.high && a.low > b.low)
  }

  function Span(first: Fractal, end: Fractal): int {
    end.end - first.start + 1
  }

  /** The place of the fractal that ends an acceptable stroke from fractal `s`. */
  function StrokeEnd(fractals: seq<Fractal>, minBars: int, s: nat): (r: Market.Option<nat>)
    requires s < |fractals|
    ensures r.Some? ==> s < r.value < |fractals|
  {
    var e := EndOf(fractals[s], fractals[s + 1..]);
    if e.None? then Market.None
    else
      (var end := fractals[s + 1 + e.value];
       if Contains(fractals[s], end) || Span(fractals[s], end) < minBars then Market.None
       else Market.Some(s + 1 + e.value))
  }

  /** The strokes from fractal `s` on, as pairs of places. */
  function Spans(fractals: seq<Fractal>, minBars: int, s: nat): seq<(nat, nat)>
    decreases |fractals| - s
  {
    if s + 1 >= |fractals| then []
    else
      var e := StrokeEnd(fractals, minBars, s);
      if e.None? then Spans(fractals, minBars, s + 1)
      else [(s, e.value)] + Spans(fractals, minBars, e.value)
  }

  predicate Inside(spans: seq<(nat, nat)>, k: nat) {
    exists i :: 0 <= i < |spans| && spans[i].0 <= k < spans[i].1
  }

  /** Places in order, without overlap, each pair an acceptable stroke. */
  ghost predicate Chained(fractals: seq<Fractal>, minBars: int, s: nat, spans: seq<(nat, nat)>) {
    && (forall i :: 0 <= i < |spans| ==>
          s <= spans[i].0 < |fractals| && StrokeEnd(fractals, minBars, spans[i].0) == Market.Some(spans[i].1))
    && (forall i :: 0 <= i < |spans| - 1 ==> spans[i].1 <= spans[i + 1].0)
  }

  lemma ChainLonger(fractals: seq<Fractal>, minBars: int, s: nat, e: nat, rest: seq<(nat, nat)>)
    requires s < |fractals| && StrokeEnd(fractals, minBars, s) == Market.Some(e) && Chained(fractals, minBars, e, rest)
    ensures Chained(fractals, minBars, s, [(s, e)] + rest)
  {
    hide StrokeEnd;
    var r := [(s, e)] + rest;
    forall i | 0 <= i < |r| - 1 ensures r[i].1 <= r[i + 1].0 {
      assert r[i + 1] == rest[i] && (i > 0 ==> r[i] == rest[i - 1]);
    }
  }

  /** Strokes follow one another without overlap, and each is acceptable. */
  lemma {:induction false} SpansAreOrdered(fractals: seq<Fractal>, minBars: int, s: nat)
    ensures Chained(fractals, minBars, s, Spans(fractals, minBars, s))
    decreases |fractals| - s
  {
    hide StrokeEnd;
    if s + 1 < |fractals| {
      var e := StrokeEnd(fractals, minBars, s);
      if e.None? {
        SpansAreOrdered(fractals, minBars, s + 1);
      } else {
        SpansAreOrdered(fractals, minBars, e.value);
        ChainLonger(fractals, minBars, s, e.value, Spans(fractals, minBars, e.value));
      }
    }
  }

  lemma InsideTail(head: (nat, nat), rest: seq<(nat, nat)>, k: nat)
    ensures Inside([head] + rest, k) <==> head.0 <= k < head.1 || Inside(rest, k)
  {
    var r := [head] + rest;
    if i :| 0 <= i < |rest| && rest[i].0 <= k < rest[i].1 {
      assert r[i + 1] == rest[i];
    }
    assert r[0] == head;
  }

  /** A fractal that lies inside no stroke starts no acceptable stroke. */
  lemma {:induction false} GapsAreBarren(fractals: seq<Fractal>, minBars: int, s: nat, k: nat)
    requires s <= k < |fractals| - 1 && !Inside(Spans(fractals, minBars, s), k)
    ensures StrokeEnd(fractals, minBars, k).None?
    decreases |fractals| - s
  {
    hide StrokeEnd, Inside;
    var e := StrokeEnd(fractals, minBars, s);
    if e.None? {
      if s < k {
        GapsAreBarren(fractals, minBars, s + 1, k);
      }
    } else {
      InsideTail((s, e.value), Spans(fractals, minBars, e.value), k);
      GapsAreBarren(fractals, minBars, e.value, k);
    }
  }

  // ---------- The strokes themselves ----------

  function MaxHigh(bars: seq<Bar>, from: nat, to: nat): (r: real)
    requires from <= to < |bars|
    ensures forall i :: from <= i <= to ==> bars[i].high <= r
    ensures exists i :: from <= i <= to && bars[i].high == r
  {
    if from == to then bars[from].high else Max(MaxHigh(bars, from, to - 1), bars[to].high)
  }

  function MinLow(bars: seq<Bar>, from: nat, to: nat): (r: real)
    requires from <= to < |bars|
    ensures forall i :: from <= i <= to ==> r <= bars[i].low
    ensures exists i :: from <= i <= to && bars[i].low == r
  {
    if from == to then bars[from].low else Min(MinLow(bars, from, to - 1), bars[to].low)
  }

  function MakeStroke(bars: seq<Bar>, first: Fractal, end: Fractal): Stroke
    requires first.start <= end.end < |bars|
  {
    Stroke(if first.mark == Top then Down else Up, first, end,
           MaxHigh(bars, first.start, end.end), MinLow(bars, first.start, end.end), Span(first, end), false)
  }

  ghost predicate Fits(bars: seq<Bar>, fractals: seq<Fractal>) {
    && (forall k :: 0 <= k < |fractals| ==>
         fractals[k].end < |bars| && fractals[k].start + 1 == fractals[k].index == fractals[k].end - 1)
    && (forall j, k :: 0 <= j < k < |fractals| ==> fractals[j].index < fractals[k].index)
  }

  ghost predicate SpansFit(fractals: seq<Fractal>, spans: seq<(nat, nat)>) {
    forall i :: 0 <= i < |spans| ==> spans[i].0 < spans[i].1 < |fractals|
  }

  function StrokesOf(bars: seq<Bar>, fractals: seq<Fractal>, spans: seq<(nat, nat)>): (r: seq<Stroke>)
    requires Fits(bars, fractals) && SpansFit(fractals, spans)
    ensures |r| == |spans|
    ensures forall i :: 0 <= i < |spans| ==> r[i] == MakeStroke(bars, fractals[spans[i].0], fractals[spans[i].1])
  {
    seq(|spans|, i requires 0 <= i < |spans| => MakeStroke(bars, fractals[spans[i].0], fractals[spans[i].1]))
  }

  lemma {:induction false} SpansDoFit(fractals: seq<Fractal>, minBars: int, s: nat)
    ensures SpansFit(fractals, Spans(fractals, minBars, s))
    decreases |fractals| - s
  {
    hide StrokeEnd;
    if s + 1 < |fractals| {
      var e := StrokeEnd(fractals, minBars, s);
      SpansDoFit(fractals, minBars, if e.None? then s + 1 else e.value);
    }
  }

  /** All the strokes over the fractals of a merged series. */
  function Strokes(bars: seq<Bar>, fractals: seq<Fractal>, minBars: int): seq<Stroke>
    requires Fits(bars, fractals)
  {
    SpansDoFit(fractals, minBars, 0);
    StrokesOf(bars, fractals, Spans(fractals, minBars, 0))
  }

  method MeasureStroke(bars: seq<Bar>, first: Fractal, end: Fractal) returns (stroke: Stroke)
    requires first.start <= end.end < |bars|
    ensures stroke == MakeStroke(bars, first, end)
  {
    var high, low := bars[first.start].high, bars[first.start].low;
    for i := first.start + 1 to end.end + 1
      invariant high == MaxHigh(bars, first.start, i - 1) && low == MinLow(bars, first.start, i - 1)
    {
      high, low := Max(high, bars[i].high), Min(low, bars[i].low);
    }
    stroke := Stroke(Up, first, end, high, low, Span(first, end), false);
    if first.mark == Top {
      stroke := stroke.(direction := Down);
    }
  }

  method BuildStrokes(bars: seq<Bar>, fractals: seq<Fractal>, minBars: int) returns (out: seq<Stroke>)
    requires Fits(bars, fractals)
    ensures out == Strokes(bars, fractals, minBars)
  {
    hide EndOf, Contains, MakeStroke, StrokeEnd;
    out := [];
    var start := 0;
    ghost var done: seq<(nat, nat)> := [];
    while start + 1 < |fractals|
      invariant SpansFit(fractals, done) && out == StrokesOf(bars, fractals, done)
      invariant done + Spans(fractals, minBars, start) == Spans(fractals, minBars, 0)
      decreases |fractals| - start
    {
      var first := fractals[start];
      var end := SelectStrokeEnd(first, fractals[start + 1..]);
      assert StrokeEnd(fractals, minBars, start).None? <==>
          (end.None? || Contains(first, end.value) || Span(first, end.value) < minBars) by {
        StrokeEndIs(fractals, minBars, start);
      }
      if end.None? || Contains(first, end.value) || Span(first, end.value) < minBars {
        start := start + 1;
        continue;
      }
      ghost var place := StrokeEnd(fractals, minBars, start).value;
      StrokeEndIs(fractals, minBars, start);
      assert end.value == fractals[place];
      var stroke := MeasureStroke(bars, first, end.value);
      ghost var before := done;
      done := done + [(start, place)];
      out := out + [stroke];
      assert out == StrokesOf(bars, fractals, done);
      assert done + Spans(fractals, minBars, place) == before + ([(start, place)] + Spans(fractals, minBars, place));
      var next := start + 1;
      while next < |fractals| && fractals[next] != end.value
        invariant start < next <= place
      {
        next := next + 1;
      }
      assert fractals[next].index == fractals[place].index;
      start := next;
    }
  }

  lemma StrokeEndIs(fractals: seq<Fractal>, minBars: int, s: nat)
    requires s < |fractals|
    ensures var e, r := EndOf(fractals[s], fractals[s + 1..]), StrokeEnd(fractals, minBars, s);
      && (e.Some? ==> s + 1 + e.value < |fractals| && fractals[s + 1..][e.value] == fractals[s + 1 + e.value])
      && (r.Some? <==>
            && e.Some? && !Contains(fractals[s], fractals[s + 1 + e.value])
            && Span(fractals[s], fractals[s + 1 + e.value]) >= minBars)
      && (r.Some? ==> r.value == s + 1 + e.value)
  {
  }

  /**
    What every stroke of the list is: opposite ends, a move its own way, long enough, its end the furthest it reached.
  */
  ghost predicate SoundStroke(bars: seq<Bar>, fractals: seq<Fractal>, minBars: int, st: Stroke) {
    && st.start.mark != st.end.mark
    && st.direction == (if st.start.mark == Bottom then Up else Down)
    && (st.direction == Up ==> st.start.price < st.end.price)
    && (st.direction == Down ==> st.end.price < st.start.price)
    && st.start.index < st.end.index && st.mergedBars == st.end.end - st.start.start + 1 >= minBars
    && (forall i :: st.start.start <= i <= st.end.end && i < |bars| ==>
         st.low <= bars[i].low && bars[i].high <= st.high)
    && (exists i :: st.start.start <= i <= st.end.end && i < |bars| && bars[i].high == st.high)
    && (exists i :: st.start.start <= i <= st.end.end && i < |bars| && bars[i].low == st.low)
    && (forall k :: 0 <= k < |fractals| && st.start.index < fractals[k].index <= st.end.index ==>
         !Breaks(st.start, fractals[k]))
    && (forall k :: 0 <= k < |fractals| && Eligible(st.start, fractals[k]) && Further(st.start, fractals[k], st.end) ==>
          exists b :: 0 <= b < k && Breaks(st.start, fractals[b]))
  }

  lemma StrokeIsSound(bars: seq<Bar>, fractals: seq<Fractal>, minBars: int, s: nat)
    requires Fits(bars, fractals) && s < |fractals| && StrokeEnd(fractals, minBars, s).Some?
    ensures SoundStroke(bars, fractals, minBars,
      MakeStroke(bars, fractals[s], fractals[StrokeEnd(fractals, minBars, s).value]))
  {
    hide StrokeEnd, EndOf, Furthest, Reach;
    var first, candidates := fractals[s], fractals[s + 1..];
    var e, n := EndOf(first, candidates), Reach(first, candidates);
    StrokeEndIs(fractals, minBars, s);
    FurthestIsExtreme(first, candidates, n);
    EndIsFurthest(first, candidates);
    var end := fractals[s + 1 + e.value];
    forall k | 0 <= k < |fractals| && first.index < fractals[k].index <= end.index ensures !Breaks(first, fractals[k]) {
      assert s < k <= s + 1 + e.value;
      assert candidates[k - s - 1] == fractals[k];
    }
    forall k | 0 <= k < |fractals| && Eligible(first, fractals[k]) && Further(first, fractals[k], end)
      ensures exists b :: 0 <= b < k && Breaks(first, fractals[b])
    {
      assert s < k;
      assert candidates[k - s - 1] == fractals[k];
      assert k - s - 1 > n;
      assert Breaks(first, fractals[s + 1 + n]);
    }
  }

  lemma EndIsFurthest(first: Fractal, candidates: seq<Fractal>)
    ensures EndOf(first, candidates) == Furthest(first, candidates, Reach(first, candidates))
  {
  }

  lemma MadeOf(bars: seq<Bar>, first: Fractal, end: Fractal)
    requires first.start <= end.end < |bars|
    ensures var st := MakeStroke(bars, first, end); st.start == first && st.end == end && !st.finished
  {
  }

  lemma StrokeAt(bars: seq<Bar>, fractals: seq<Fractal>, minBars: int, i: nat)
    requires Fits(bars, fractals) && i < |Spans(fractals, minBars, 0)|
    ensures var r, spans := Strokes(bars, fractals, minBars), Spans(fractals, minBars, 0);
      && |r| == |spans| && spans[i].0 < spans[i].1 < |fractals|
      && SoundStroke(bars, fractals, minBars, r[i]) && !r[i].finished
      && r[i].start == fractals[spans[i].0] && r[i].end == fractals[spans[i].1]
  {
    hide Spans, StrokeEnd, MakeStroke, SoundStroke, Fits;
    var spans := Spans(fractals, minBars, 0);
    SpansDoFit(fractals, minBars, 0);
    SpansAreOrdered(fractals, minBars, 0);
    StrokeIsSound(bars, fractals, minBars, spans[i].0);
    assert fractals[spans[i].0].start <= fractals[spans[i].1].end < |bars| by {
      OrderedPair(bars, fractals, spans[i].0, spans[i].1);
    }
    MadeOf(bars, fractals[spans[i].0], fractals[spans[i].1]);
  }

  lemma OrderedPair(bars: seq<Bar>, fractals: seq<Fractal>, s: nat, e: nat)
    requires Fits(bars, fractals) && s <= e < |fractals|
    ensures fractals[s].start <= fractals[e].end < |bars| && fractals[s].index <= fractals[e].index
  {
  }

  /** The list of strokes: each sound, none overlapping the next. */
  lemma StrokesAreSound(bars: seq<Bar>, fractals: seq<Fractal>, minBars: int)
    requires Fits(bars, fractals)
    ensures var r := Strokes(bars, fractals, minBars);
      && (forall i :: 0 <= i < |r| ==> SoundStroke(bars, fractals, minBars, r[i]) && !r[i].finished)
      && (forall i :: 0 <= i < |r| - 1 ==> r[i].end.index <= r[i + 1].start.index)
  {
    hide Spans, StrokesOf, SoundStroke, Fits, StrokeEnd;
    var spans, r := Spans(fractals, minBars, 0), Strokes(bars, fractals, minBars);
    SpansDoFit(fractals, minBars, 0);
    SpansAreOrdered(fractals, minBars, 0);
    forall i | 0 <= i < |r| ensures SoundStroke(bars, fractals, minBars, r[i]) && !r[i].finished {
      StrokeAt(bars, fractals, minBars, i);
    }
    forall i | 0 <= i < |r| - 1 ensures r[i].end.index <= r[i + 1].start.index {
      StrokeAt(bars, fractals, minBars, i);
      StrokeAt(bars, fractals, minBars, i + 1);
      OrderedPair(bars, fractals, spans[i].1, spans[i + 1].0);
    }
  }
}
