/** `Analyze` of internal/chanlun/chanlun.go: merged bars, fractals, strokes and zones of one series. */
module Chan {
  import opened Inclusion
  import opened Fractals
  import opened Strokes
  import opened Zones

  const DEFAULT_MIN_STROKE_BARS: int := 6

  datatype Analysis = Analysis(
    mergedBars: seq<Bar>, fractals: seq<Fractal>, strokes: seq<Stroke>, finished: seq<Stroke>, zones: seq<Zone>,
      lastClose: real)

  datatype Outcome = Analysed(analysis: Analysis) | StrokeTooShort | Invalid(at: nat, fault: Fault)

  const EMPTY := Analysis([], [], [], [], [], 0.0)

  /** The fractals of a merged series lie inside it, in order. */
  lemma FractalsFit(bars: seq<Bar>)
    requires Stepped(bars)
    ensures Fits(bars, Detect(bars)) && Alternates(Detect(bars))
    ensures |bars| > 1 ==> Detect(bars) == Turns(bars, |bars| - 1)
  {
    hide FractalAt;
    if |bars| > 1 {
      var fractals := Turns(bars, |bars| - 1);
      DetectedAreTurns(bars, |bars| - 1);
      TurnsAreInPlace(bars, |bars| - 1);
      forall k | 0 <= k < |fractals|
        ensures fractals[k].end < |bars| && fractals[k].start + 1 == fractals[k].index == fractals[k].end - 1
      {
        FractalIndex(bars, fractals[k].index);
      }
    }
  }

  lemma MergedFit(bars: seq<Bar>)
    requires Accepts(bars)
    ensures Fits(Merge(bars), Detect(Merge(bars)))
  {
    hide Accepts, Sane, Fits;
    AcceptedIsOrderedIff(bars);
    MergeConserves(bars, |bars|);
    FractalsFit(Merge(bars));
  }

  /** All strokes but the last are finished. */
  function Marked(strokes: seq<Stroke>): (r: seq<Stroke>)
    ensures |r| == |strokes|
  {
    seq(|strokes|, i requires 0 <= i < |strokes| => strokes[i].(finished := i < |strokes| - 1))
  }

  function StrokesFrom(bars: seq<Bar>, minStrokeBars: int): seq<Stroke>
    requires Accepts(bars)
  {
    MergedFit(bars);
    Marked(Strokes.Strokes(Merge(bars), Detect(Merge(bars)), minStrokeBars))
  }

  function Finished(strokes: seq<Stroke>): seq<Stroke> {
    if |strokes| == 0 then [] else strokes[..|strokes| - 1]
  }

  function StrokeBars(minStrokeBars: int): int {
    if minStrokeBars == 0 then DEFAULT_MIN_STROKE_BARS else minStrokeBars
  }

  function AnalysisOf(bars: seq<Bar>, minStrokeBars: int): Analysis
    requires Accepts(bars) && |bars| > 0
  {
    var strokes := StrokesFrom(bars, minStrokeBars);
    Analysis(Merge(bars), Detect(Merge(bars)), strokes, Finished(strokes), Zones.Zones(Finished(strokes)),
      bars[|bars| - 1].close)
  }

  method Analyze(bars: seq<Bar>, minStrokeBars: int) returns (r: Outcome)
    ensures r == StrokeTooShort <==> StrokeBars(minStrokeBars) < 3
    ensures r.Invalid? <==> StrokeBars(minStrokeBars) >= 3 && !Accepts(bars)
    ensures r.Invalid? ==> r.at < |bars| && FaultAt(bars, r.at) == Wrong(r.at, r.fault)
    ensures r.Analysed? ==> r.analysis == if |bars| == 0 then EMPTY else AnalysisOf(bars, StrokeBars(minStrokeBars))
  {
    hide Accepts, Merge, Detect, Fits, Zones.Zones, Strokes.Strokes, FaultAt;
    var minBars := minStrokeBars;
    if minBars == 0 {
      minBars := DEFAULT_MIN_STROKE_BARS;
    }
    if minBars < 3 {
      return StrokeTooShort;
    }
    var verdict := Validate(bars);
    if verdict.Wrong? {
      return Invalid(verdict.at, verdict.fault);
    }
    if |bars| == 0 {
      return Analysed(EMPTY);
    }
    var merged := MergeInclusions(bars);
    var fractals := DetectFractals(merged);
    MergedFit(bars);
    var strokes := BuildStrokes(merged, fractals, minBars);
    ghost var built := strokes;
    for i := 0 to |strokes|
      invariant |strokes| == |built|
      invariant forall k :: 0 <= k < i ==> strokes[k] == built[k].(finished := k < |built| - 1)
      invariant forall k :: i <= k < |built| ==> strokes[k] == built[k]
    {
      strokes := strokes[i := strokes[i].(finished := i < |strokes| - 1)];
    }
    assert strokes == Marked(built);
    var finished := [];
    for i := 0 to |strokes|
      invariant finished == if i < |strokes| then strokes[..i] else Finished(strokes)
    {
      if strokes[i].finished {
        finished := finished + [strokes[i]];
      }
    }
    var zones := BuildZones(finished);
    return Analysed(Analysis(merged, fractals, strokes, finished, zones, bars[|bars| - 1].close));
  }

  // ---------- The whole analysis ----------

  /** Soundness does not depend on whether a stroke is marked finished. */
  ghost predicate SoundStrokes(bars: seq<Bar>, fractals: seq<Fractal>, minBars: int, strokes: seq<Stroke>) {
    && (forall i :: 0 <= i < |strokes| ==>
          SoundStroke(bars, fractals, minBars, strokes[i]) && (strokes[i].finished <==> i < |strokes| - 1))
    && (forall i :: 0 <= i < |strokes| - 1 ==> strokes[i].end.index <= strokes[i + 1].start.index)
  }

  lemma FinishedIsNoMatter(bars: seq<Bar>, fractals: seq<Fractal>, minBars: int, st: Stroke, finished: bool)
    requires SoundStroke(bars, fractals, minBars, st)
    ensures SoundStroke(bars, fractals, minBars, st.(finished := finished))
  {
  }

  lemma MarkedAreSound(bars: seq<Bar>, fractals: seq<Fractal>, minBars: int)
    requires Fits(bars, fractals)
    ensures SoundStrokes(bars, fractals, minBars, Marked(Strokes.Strokes(bars, fractals, minBars)))
  {
    hide SoundStroke, Fits, Strokes.Strokes;
    var s := Strokes.Strokes(bars, fractals, minBars);
    StrokesAreSound(bars, fractals, minBars);
    forall i | 0 <= i < |s|
      ensures SoundStroke(bars, fractals, minBars, Marked(s)[i])
    {
      FinishedIsNoMatter(bars, fractals, minBars, s[i], i < |s| - 1);
    }
  }

  /**
    Each zone is measured from a run of its own; runs are disjoint, in order and sound, and no three
    consecutive strokes with a common range lie outside of them.
  */
  ghost predicate SoundZones(strokes: seq<Stroke>, runs: seq<(nat, nat)>, zones: seq<Zone>) {
    && |zones| == |runs| && SoundRuns(strokes, 0, runs)
    && (forall k :: 0 <= k < |runs| ==>
         runs[k].0 < runs[k].1 <= |strokes| && zones[k] == NewZone(strokes[runs[k].0..runs[k].1]))
    && (forall k :: 0 <= k && k + 3 <= |strokes| && Meet(strokes[k..k + 3]) ==> Zones.Inside(runs, k))
  }

  /**
    The structure of an accepted series: merging loses nothing, fractals are the turning points and
    alternate, strokes are sound and do not overlap, and the zones of the finished strokes are the
    disjoint runs that share a range.
  */
  lemma AnalysisIsSound(bars: seq<Bar>, minBars: int)
    requires Accepts(bars) && |bars| > 0
    ensures
      var a := AnalysisOf(bars, minBars);
      && Volume(a.mergedBars) == Volume(bars) && RawBars(a.mergedBars) == RawBars(bars) && Stepped(a.mergedBars)
      && a.fractals == (if |a.mergedBars| <= 1 then [] else Turns(a.mergedBars, |a.mergedBars| - 1))
           && Alternates(a.fractals)
      && SoundStrokes(a.mergedBars, a.fractals, minBars, a.strokes)
      && (forall i :: 0 <= i < |a.finished| ==>
           a.finished[i].finished && i < |a.strokes| - 1 && a.finished[i] == a.strokes[i])
      && SoundZones(a.finished, Runs(a.finished, 0, 0), a.zones)
      && (ZeroIsFollowed(bars) ==> Ascending(a.mergedBars))
  {
    hide Accepts, Sane, Merge, Fits, Stepped, Ascending, ZeroIsFollowed, Turns, Alternates, SoundStroke, SoundRuns;
    hide Runs, Zones.Zones, Strokes.Strokes, Volume, RawBars, NewZone, Meet, Zones.Inside;
    MergedIs(bars);
    AcceptedIsOrderedIff(bars);
    MergeConserves(bars, |bars|);
    FractalsFit(Merge(bars));
    MarkedAreSound(Merge(bars), Detect(Merge(bars)), minBars);
    var a := AnalysisOf(bars, minBars);
    ZonesAreSound(a.finished);
    if ZeroIsFollowed(bars) {
      MergeKeepsTimes(bars, |bars|);
    }
  }

  lemma MergedIs(bars: seq<Bar>)
    ensures MergeTo(bars, |bars|).out == Merge(bars) && bars[..|bars|] == bars
  {
  }
}
