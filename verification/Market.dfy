/** Daily bars. Dates are day numbers, in the order of the ISO dates of the source. */
module Market {
  datatype Bar = Bar(date: int, open: real, high: real, low: real, close: real, volume: real)
  {
    /** What `History.Validate` checks of the prices of a single bar. */
    ghost predicate Valid() {
      && 0.0 < open && 0.0 < close && 0.0 < low && 0.0 <= volume
      && low <= open <= high
      && low <= close <= high
    }
  }

  /** What `History.Validate` checks of a whole history. */
  ghost predicate ValidBars(bars: seq<Bar>) {
    && (forall i :: 0 <= i < |bars| ==> bars[i].Valid())
    && (forall i, j :: 0 <= i < j < |bars| ==> bars[i].date < bars[j].date)
  }

  lemma DatesAscend(bars: seq<Bar>, i: int, j: int)
    requires ValidBars(bars) && 0 <= i <= j < |bars|
    ensures bars[i].date <= bars[j].date
    ensures i < j ==> bars[i].date < bars[j].date
  {
  }

  datatype Option<+T> = None | Some(value: T)
}
