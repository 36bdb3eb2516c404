/** The stages of the Chan analysis in the prices of the bars: faults, merging, the end of a stroke and the zones. */
module ChanLaws {
  import opened Inclusion
  import opened Money
  import opened Fractals
  import opened Strokes
  import opened Zones
  import opened Chan
  import Market

  // ---------- faults ----------

  /** What is refused of a bar: a negative number, prices out of order, or a time that is not after the ones before. */
  lemma FaultIs(bars: seq<Bar>, i: nat)
    requires i < |bars|
    ensures var b, v := bars[i], FaultAt(bars, i);
      var negative := b.open < 0.0 || b.high < 0.0 || b.low < 0.0 || b.close < 0.0 || b.volume < 0.0;
      var ordered := 0.0 < b.low <= b.open <= b.high && b.low <= b.close <= b.high;
      && (v == Wrong(i, InvalidNumber) <==> negative)
      && (v == Wrong(i, InvalidPrices) <==> !negative && !ordered)
      && (v == Wrong(i, OutOfOrder) ==> !negative && ordered)
      && (v == Fine || v == Wrong(i, InvalidNumber) || v == Wrong(i, InvalidPrices) || v == Wrong(i, OutOfOrder))
  {
  }

  /** A stroke spans at least the given number of merged bars, six when none is given. */
  lemma StrokeBarsIs(minStrokeBars: int)
    ensures StrokeBars(minStrokeBars) == if minStrokeBars == 0 then 6 else minStrokeBars
  {
  }

  // ---------- merging ----------

  /** One of two bars lies within the other. */
  predicate Nested(l: Bar, b: Bar) {
    (l.low <= b.low && b.high <= l.high) || (b.low <= l.low && l.high <= b.high)
  }

  /** The last two bars rise: by the high, then by the low, then as the ones before did; at the beginning they do. */
  predicate Rising(p: Bar, l: Bar, before: int) {
    if p.high != l.high then p.high < l.high
    else if p.low != l.low then p.low < l.low
    else before >= 0
  }

  /**
   * How the next bar is taken in: it counts for one bar at least; beside a bar that it is not nested with it is added;
   * else the two become one, which opens with the first and closes with the second, has the bars and the volume of
   * both, the higher high and low of both when the bars before rise and the lower ones otherwise, and the time of the
   * one whose extreme it keeps.
   */
  lemma TakenIn(s: Merging, source: Bar)
    ensures
      var n, r, b := |s.out|, Absorb(s, source), source.(rawBars := if source.rawBars > 0 then source.rawBars else 1);
      && (n < 2 || !Nested(s.out[n - 1], b) ==> r.out == s.out + [b])
      && (n >= 2 ==> (r.direction > 0 <==> Rising(s.out[n - 2], s.out[n - 1], s.direction)))
      && (n >= 2 && Nested(s.out[n - 1], b) ==>
            var l, up := s.out[n - 1], Rising(s.out[n - 2], s.out[n - 1], s.direction);
            && |r.out| == n && r.out[..n - 1] == s.out[..n - 1]
            && var m := r.out[n - 1];
               && m.open == l.open && m.close == b.close
               && m.volume == l.volume + b.volume && m.rawBars == l.rawBars + b.rawBars
               && m.high == (if up == (l.high < b.high) then b.high else l.high)
               && m.low == (if up == (l.low < b.low) then b.low else l.low)
               && m.time == (if up then if b.high > l.high then b.time else l.time
                             else if b.low < l.low then b.time else l.time))
  {
  }

  // ---------- the end of a stroke ----------

  /** A later fractal of the same kind beyond the first: it ends the search. */
  predicate Beyond(first: Fractal, c: Fractal) {
    && first.index < c.index && c.mark == first.mark
    && (first.mark == Top ==> c.high > first.high) && (first.mark == Bottom ==> c.low < first.low)
  }

  /** A later fractal of the other kind on the far side of the price. */
  predicate Across(first: Fractal, c: Fractal) {
    && first.index < c.index && c.mark != first.mark
    && (first.mark == Top ==> c.price < first.price) && (first.mark == Bottom ==> c.price > first.price)
  }

  lemma BreaksIs(first: Fractal, c: Fractal)
    ensures Breaks(first, c) <==> Beyond(first, c)
    ensures Eligible(first, c) <==> Across(first, c)
  {
  }

  /**
   * The end of the search from a fractal: none when nothing lies across before the first beyond it; else, of those that
   * do, the first with the highest high after a bottom, or with the lowest low after a top.
   */
  lemma EndIs(first: Fractal, candidates: seq<Fractal>) returns (reach: nat)
    ensures reach <= |candidates|
    ensures forall k :: 0 <= k < reach ==> !Beyond(first, candidates[k])
    ensures reach < |candidates| ==> Beyond(first, candidates[reach])
    ensures
      var e := Strokes.EndOf(first, candidates);
      && (e.None? <==> forall k :: 0 <= k < reach ==> !Across(first, candidates[k]))
      && (e.Some? ==>
            && e.value < reach && Across(first, candidates[e.value])
            && (forall k :: 0 <= k < reach && Across(first, candidates[k]) ==>
                  && (first.mark == Bottom ==> candidates[k].high <= candidates[e.value].high)
                  && (first.mark == Top ==> candidates[k].low >= candidates[e.value].low))
            && (forall k :: 0 <= k < e.value && Across(first, candidates[k]) ==>
                  && (first.mark == Bottom ==> candidates[k].high < candidates[e.value].high)
                  && (first.mark == Top ==> candidates[k].low > candidates[e.value].low)))
  {
    hide Breaks, Eligible, Beyond, Across;
    reach := Reach(first, candidates);
    FurthestIsExtreme(first, candidates, reach);
    forall k | 0 <= k < |candidates|
      ensures Breaks(first, candidates[k]) <==> Beyond(first, candidates[k])
      ensures Eligible(first, candidates[k]) <==> Across(first, candidates[k])
    {
      BreaksIs(first, candidates[k]);
    }
  }

  /** A stroke from a fractal needs an end as far as that, enough bars, and neither price range inside the other's. */
  lemma StrokeEndIs(fractals: seq<Fractal>, minBars: int, s: nat)
    requires s < |fractals|
    ensures
      var found, end := Strokes.EndOf(fractals[s], fractals[s + 1..]), StrokeEnd(fractals, minBars, s);
      && (end.Some? ==> found.Some? && end.value == s + 1 + found.value)
      && (found.Some? ==>
            var a, b := fractals[s], fractals[s + 1 + found.value];
            end.Some? <==> b.end - a.start + 1 >= minBars
                             && !(a.low < b.low && b.high < a.high) && !(b.low < a.low && a.high < b.high))
  {
    hide Strokes.EndOf;
  }

  // ---------- zones ----------

  /** A zone over the strokes `a` to `b` - 1, in their prices. */
  ghost predicate ZoneOver(strokes: seq<Stroke>, a: nat, b: nat, z: Zone) {
    && a + 3 <= b <= |strokes|
    && z.from == strokes[a].start.time && z.to == strokes[b - 1].end.time && z.strokes == b - a
    && z.lower == Max(Max(strokes[a].low, strokes[a + 1].low), strokes[a + 2].low)
    && z.upper == Min(Min(strokes[a].high, strokes[a + 1].high), strokes[a + 2].high)
    && z.lower <= z.upper && 2.0 * z.mid == z.lower + z.upper
    && (forall k :: a <= k < b ==>
          && strokes[k].low <= z.upper && z.lower <= strokes[k].high
          && z.low <= strokes[k].low && strokes[k].high <= z.high)
    && (exists k :: a <= k < b && strokes[k].high == z.high) && (exists k :: a <= k < b && strokes[k].low == z.low)
    && (b < |strokes| ==> strokes[b].high < z.lower || z.upper < strokes[b].low)
  }

  /**
   * Every zone lies over a run of three finished strokes or more: it reaches from the highest low of the first three to
   * their lowest high, has its middle between, is met by every stroke of the run and missed by the one after it, and
   * knows the extremes of them all.
   */
  lemma ZoneMeans(strokes: seq<Stroke>, k: nat)
    requires k < |Zones.Zones(strokes)|
    ensures k < |Runs(strokes, 0, 0)|
    ensures var run := Runs(strokes, 0, 0)[k];
      ZoneOver(strokes, run.0, run.1, Zones.Zones(strokes)[k])
  {
    hide Runs, NewZone, Stands, Overlaps, ZoneOver, Zones.Zones;
    ZonesAreSound(strokes);
    var run := Runs(strokes, 0, 0)[k];
    RunMeans(strokes, run.0, run.1);
  }

  lemma RunMeans(strokes: seq<Stroke>, a: nat, b: nat)
    requires a + 3 <= b <= |strokes| && Stands(strokes, a, b)
    requires b < |strokes| ==> !Overlaps(strokes[b], NewZone(strokes[a..b]))
    ensures ZoneOver(strokes, a, b, NewZone(strokes[a..b]))
  {
    var group := strokes[a..b];
    hide LeastHigh, GreatestLow, GreatestHigh, LeastLow;
    Extremes(group);
    CoreOfThree(group);
    var i :| 0 <= i < |group| && group[i].high == GreatestHigh(group);
    var j :| 0 <= j < |group| && group[j].low == LeastLow(group);
    assert strokes[a + i] == group[i] && strokes[a + j] == group[j];
    forall k | a <= k < b ensures strokes[k] == group[k - a] {
    }
  }

  lemma CoreOfThree(group: seq<Stroke>)
    requires |group| >= 3
    ensures LeastHigh(Core(group)) == Min(Min(group[0].high, group[1].high), group[2].high)
    ensures GreatestLow(Core(group)) == Max(Max(group[0].low, group[1].low), group[2].low)
  {
    var c, two, one := Core(group), [group[0], group[1]], [group[0]];
    assert c[..2] == two && two[..1] == one && c[2] == group[2];
    assert LeastHigh(one) == group[0].high && GreatestLow(one) == group[0].low;
    assert LeastHigh(two) == Min(group[0].high, group[1].high) && GreatestLow(two) == Max(group[0].low, group[1].low);
  }
}
