/** Fractals of internal/chanlun/chanlun.go: the bars at which the merged series turns. */
module Fractals {
  import opened Inclusion
  import Market

  datatype Mark = Top | Bottom

  datatype Fractal = Fractal(mark: Mark, time: int, high: real, low: real, price: real, index: nat, start: nat,
      end: nat)

  /** The fractal whose middle is bar `i`. */
  function FractalAt(bars: seq<Bar>, i: nat): Market.Option<Fractal>
    requires 1 <= i < |bars| - 1
  {
    var left, middle, right := bars[i - 1], bars[i], bars[i + 1];
    if Rises(left, middle) && Falls(middle, right) then
      Market.Some(Fractal(Top, middle.time, middle.high, middle.low, middle.high, i, i - 1, i + 1))
    else if Falls(left, middle) && Rises(middle, right) then
      Market.Some(Fractal(Bottom, middle.time, middle.high, middle.low, middle.low, i, i - 1, i + 1))
    else Market.None
  }

  predicate MoreExtreme(f: Fractal, last: Fractal) {
    (f.mark == Top && f.high > last.high) || (f.mark == Bottom && f.low < last.low)
  }

  function Appended(out: seq<Fractal>, f: Fractal): seq<Fractal> {
    if |out| == 0 || out[|out| - 1].mark != f.mark then out + [f]
    else if MoreExtreme(f, out[|out| - 1]) then out[..|out| - 1] + [f]
    else out
  }

  /** What the detection holds after bars 1 to n - 1. */
  function Detected(bars: seq<Bar>, n: nat): seq<Fractal>
    requires n == 1 || 1 <= n < |bars|
  {
    if n <= 1 then []
    else
      var f := FractalAt(bars, n - 1);
      if f.None? then Detected(bars, n - 1) else Appended(Detected(bars, n - 1), f.value)
  }

  function Detect(bars: seq<Bar>): seq<Fractal> {
    Detected(bars, if |bars| <= 1 then 1 else |bars| - 1)
  }

  method AppendFractal(out: seq<Fractal>, f: Fractal) returns (r: seq<Fractal>)
    ensures r == Appended(out, f)
  {
    if |out| == 0 || out[|out| - 1].mark != f.mark {
      return out + [f];
    }
    r := out;
    var last := out[|out| - 1];
    if (f.mark == Top && f.high > last.high) || (f.mark == Bottom && f.low < last.low) {
      r := r[|out| - 1 := f];
    }
  }

  method DetectFractals(bars: seq<Bar>) returns (out: seq<Fractal>)
    ensures out == Detect(bars)
  {
    out := [];
    var i := 1;
    while i + 1 < |bars|
      invariant i == 1 || 1 <= i < |bars|
      invariant out == Detected(bars, i)
    {
      var left, middle, right := bars[i - 1], bars[i], bars[i + 1];
      if left.high < middle.high && middle.high > right.high && left.low < middle.low && middle.low > right.low {
        out := AppendFractal(out, Fractal(Top, middle.time, middle.high, middle.low, middle.high, i, i - 1, i + 1));
      } else if left.low > middle.low && middle.low < right.low && left.high > middle.high && middle.high < right.high {
        out := AppendFractal(out, Fractal(Bottom, middle.time, middle.high, middle.low, middle.low, i, i - 1, i + 1));
      }
      i := i + 1;
    }
  }

  // ---------- Turning points ----------

  /** Every fractal found, kept as it is. */
  function Turns(bars: seq<Bar>, n: nat): seq<Fractal>
    requires n == 1 || 1 <= n < |bars|
  {
    if n <= 1 then []
    else
      var f := FractalAt(bars, n - 1);
      if f.None? then Turns(bars, n - 1) else Turns(bars, n - 1) + [f.value]
  }

  predicate Alternates(fractals: seq<Fractal>) {
    forall k :: 0 <= k < |fractals| - 1 ==> fractals[k].mark != fractals[k + 1].mark
  }

  /** Fractals in order, each made from the bar it names. */
  ghost predicate InPlace(bars: seq<Bar>, fractals: seq<Fractal>) {
    && (forall k :: 0 <= k < |fractals| ==>
          1 <= fractals[k].index < |bars| - 1 && FractalAt(bars, fractals[k].index) == Market.Some(fractals[k]))
    && (forall j, k :: 0 <= j < k < |fractals| ==> fractals[j].index < fractals[k].index)
  }

  /** After a top the series falls until it turns, after a bottom it rises. */
  predicate Heading(bars: seq<Bar>, fractals: seq<Fractal>, n: nat)
    requires 1 <= n < |bars|
  {
    |fractals| > 0 ==>
      if fractals[|fractals| - 1].mark == Top then Falls(bars[n - 1], bars[n]) else Rises(bars[n - 1], bars[n])
  }

  /**
    On a stepped series the collapse of same-sided fractals never happens: what is detected is every
    turning point, and tops and bottoms alternate.
  */
  lemma {:induction false} DetectedAreTurns(bars: seq<Bar>, n: nat)
    requires Stepped(bars) && 1 <= n < |bars|
    ensures Detected(bars, n) == Turns(bars, n) && Alternates(Turns(bars, n)) && Heading(bars, Turns(bars, n), n)
  {
    hide FractalAt, Stepped;
    if n > 1 {
      DetectedAreTurns(bars, n - 1);
      KeepsHeading(bars, Turns(bars, n - 1), n - 1);
    }
  }

  lemma KeepsHeading(bars: seq<Bar>, before: seq<Fractal>, n: nat)
    requires Stepped(bars) && 1 <= n < |bars| - 1 && Heading(bars, before, n)
    requires n == 1 ==> before == []
    ensures var f := FractalAt(bars, n);
      if f.None? then Heading(bars, before, n + 1)
      else Heading(bars, before + [f.value], n + 1) && (|before| > 0 ==> before[|before| - 1].mark != f.value.mark)
  {
    assert Rises(bars[n], bars[n + 1]) || Falls(bars[n], bars[n + 1]);
  }

  lemma FractalIndex(bars: seq<Bar>, i: nat)
    requires 1 <= i < |bars| - 1 && FractalAt(bars, i).Some?
    ensures var f := FractalAt(bars, i).value; f.index == i && f.start == i - 1 && f.end == i + 1
  {
  }

  lemma {:induction false} TurnsAreInPlace(bars: seq<Bar>, n: nat)
    requires 1 <= n < |bars|
    ensures InPlace(bars, Turns(bars, n))
    ensures forall k :: 0 <= k < |Turns(bars, n)| ==> Turns(bars, n)[k].index < n
  {
    hide FractalAt;
    if n > 1 {
      TurnsAreInPlace(bars, n - 1);
      if FractalAt(bars, n - 1).Some? {
        FractalIndex(bars, n - 1);
      }
    }
  }

  /** No turning point is left out. */
  lemma {:induction false} NoTurnIsMissed(bars: seq<Bar>, n: nat, i: nat)
    requires 1 <= i < n < |bars| && FractalAt(bars, i).Some?
    ensures FractalAt(bars, i).value in Turns(bars, n)
  {
    hide FractalAt;
    if i < n - 1 {
      NoTurnIsMissed(bars, n - 1, i);
    }
  }

  /** From the third bar on a turn shows in the highs alone, and in the lows alone. */
  lemma TurnsShowInEitherPrice(bars: seq<Bar>, i: nat)
    requires Stepped(bars) && 2 <= i < |bars| - 1
    ensures var f := FractalAt(bars, i);
      && (f.Some? && f.value.mark == Top <==> bars[i - 1].high < bars[i].high && bars[i].high > bars[i + 1].high)
      && (f.Some? && f.value.mark == Top <==> bars[i - 1].low < bars[i].low && bars[i].low > bars[i + 1].low)
      && (f.Some? && f.value.mark == Bottom <==> bars[i - 1].high > bars[i].high && bars[i].high < bars[i + 1].high)
      && (f.Some? && f.value.mark == Bottom <==> bars[i - 1].low > bars[i].low && bars[i].low < bars[i + 1].low)
  {
    assert Rises(bars[i - 1], bars[i]) || Falls(bars[i - 1], bars[i]);
    assert Rises(bars[i], bars[i + 1]) || Falls(bars[i], bars[i + 1]);
  }
}
