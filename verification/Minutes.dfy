/**
  Trading sessions and five-minute groups (internal/market/intraday.go). An instant counts the
  minutes of the Shanghai wall clock, midnight at a multiple of 1440, and what is left of the minute.
*/
module Minutes {

  datatype Instant = Instant(minute: int, rest: nat)
  {
    function Plus(minutes: int): Instant {
      Instant(minute + minutes, rest)
    }

    predicate After(other: Instant) {
      minute > other.minute || (minute == other.minute && rest > other.rest)
    }
  }

  const MORNING: int := 570
  const AFTERNOON: int := 780

  predicate MinutePeriod(period: int) {
    period == 5 || period == 15 || period == 30 || period == 60
  }

  /** How many five-minute bars make one of the period. */
  function Slots(period: int): int {
    period / 5
  }

  predicate Aligned(offset: int, period: int) {
    match period
    case 5 => offset % 5 == 0
    case 15 => offset % 15 == 0
    case 30 => offset % 30 == 0
    case 60 => offset % 60 == 0
    case _ => false
  }

  predicate SessionOf(t: Instant, period: int, start: int) {
    var n := t.minute % 1440;
    start < n <= start + 120 && Aligned(n - start, period) && t.rest == 0
  }

  /** `MinuteSession`: the bar ends inside a session, on a full period, to the nanosecond. */
  predicate InSession(t: Instant, period: int) {
    SessionOf(t, period, MORNING) || SessionOf(t, period, AFTERNOON)
  }

  function SessionStart(t: Instant): int {
    if t.minute % 1440 <= MORNING + 120 then MORNING else AFTERNOON
  }

  /** The first multiple of the period at or after a positive offset. */
  function RoundUp(offset: int, period: int): int {
    match period
    case 15 => ((offset - 1) / 15 + 1) * 15
    case 30 => ((offset - 1) / 30 + 1) * 30
    case 60 => ((offset - 1) / 60 + 1) * 60
    case _ => ((offset - 1) / 5 + 1) * 5
  }

  /** The end of the period's group that holds the five minutes ending at `t`. */
  function GroupEnd(t: Instant, period: int): Instant {
    Instant(t.minute / 1440 * 1440 + SessionStart(t) + RoundUp(t.minute % 1440 - SessionStart(t), period), 0)
  }

  // ---------- Facts about groups ----------

  lemma RoundsUpBy15(offset: int)
    requires 0 < offset <= 120 && offset % 5 == 0
    ensures var r := ((offset - 1) / 15 + 1) * 15;
      offset <= r < offset + 15 && r <= 120 && r % 15 == 0 && (r - offset) % 5 == 0
  {
    var k, q := (offset - 1) / 15 + 1, offset / 5;
    assert 15 * (k - 1) <= offset - 1 < 15 * k;
    assert 15 * k - offset == 5 * (3 * k - q);
  }

  lemma RoundsUpBy30(offset: int)
    requires 0 < offset <= 120 && offset % 5 == 0
    ensures var r := ((offset - 1) / 30 + 1) * 30;
      offset <= r < offset + 30 && r <= 120 && r % 30 == 0 && (r - offset) % 5 == 0
  {
    var k, q := (offset - 1) / 30 + 1, offset / 5;
    assert 30 * (k - 1) <= offset - 1 < 30 * k;
    assert 30 * k - offset == 5 * (6 * k - q);
  }

  lemma RoundsUpBy60(offset: int)
    requires 0 < offset <= 120 && offset % 5 == 0
    ensures var r := ((offset - 1) / 60 + 1) * 60;
      offset <= r < offset + 60 && r <= 120 && r % 60 == 0 && (r - offset) % 5 == 0
  {
    var k, q := (offset - 1) / 60 + 1, offset / 5;
    assert 60 * (k - 1) <= offset - 1 < 60 * k;
    assert 60 * k - offset == 5 * (12 * k - q);
  }

  lemma RoundsUp(offset: int, period: int)
    requires MinutePeriod(period) && 0 < offset <= 120 && offset % 5 == 0
    ensures var r := RoundUp(offset, period);
      offset <= r < offset + period && r <= 120 && Aligned(r, period) && (r - offset) % 5 == 0
  {
    if period == 15 {
      RoundsUpBy15(offset);
    } else if period == 30 {
      RoundsUpBy30(offset);
    } else if period == 60 {
      RoundsUpBy60(offset);
    }
  }

  /** What a session instant is made of. */
  lemma Clock(t: Instant, period: int)
    requires MinutePeriod(period) && InSession(t, period)
    ensures var offset := t.minute % 1440 - SessionStart(t);
      && t.rest == 0 && 0 < offset <= 120 && Aligned(offset, period) && (period == 5 ==> offset % 5 == 0)
      && t.minute == t.minute / 1440 * 1440 + SessionStart(t) + offset
  {
  }

  lemma AtClock(day: int, start: int, offset: int, period: int)
    requires (start == MORNING || start == AFTERNOON) && 0 < offset <= 120 && Aligned(offset, period)
    ensures var t := Instant(day * 1440 + start + offset, 0);
      InSession(t, period) && SessionStart(t) == start && t.minute / 1440 == day && t.minute % 1440 == start + offset
  {
  }

  /** The group ends less than a period later, on the period, in the same session. */
  lemma GroupEndIs(t: Instant, period: int)
    requires MinutePeriod(period) && InSession(t, 5)
    ensures var e := GroupEnd(t, period);
      && t.minute <= e.minute < t.minute + period && (e.minute - t.minute) % 5 == 0 && e.rest == 0
      && InSession(e, period) && SessionStart(e) == SessionStart(t) && e.minute / 1440 == t.minute / 1440
  {
    hide RoundUp, Aligned, InSession;
    Clock(t, 5);
    var offset := t.minute % 1440 - SessionStart(t);
    RoundsUp(offset, period);
    AtClock(t.minute / 1440, SessionStart(t), RoundUp(offset, period), period);
  }

  lemma RoundUpIsMonotone(a: int, b: int, period: int)
    requires MinutePeriod(period) && 0 < a <= b <= 120
    ensures RoundUp(a, period) <= RoundUp(b, period)
    ensures b <= RoundUp(a, period) ==> RoundUp(a, period) == RoundUp(b, period)
  {
    var p := period;
    if p == 15 {
      assert (a - 1) / 15 <= (b - 1) / 15;
    } else if p == 30 {
      assert (a - 1) / 30 <= (b - 1) / 30;
    } else if p == 60 {
      assert (a - 1) / 60 <= (b - 1) / 60;
    } else {
      assert (a - 1) / 5 <= (b - 1) / 5;
    }
  }

  /** A later session bar lies in the same group exactly when it ends no later than the group. */
  lemma SameGroup(t: Instant, u: Instant, period: int)
    requires MinutePeriod(period) && InSession(t, 5) && InSession(u, 5) && t.minute <= u.minute
    ensures u.minute <= GroupEnd(t, period).minute <==> GroupEnd(u, period) == GroupEnd(t, period)
    ensures GroupEnd(t, period).minute <= GroupEnd(u, period).minute
  {
    hide RoundUp, Aligned, InSession;
    Clock(t, 5);
    Clock(u, 5);
    GroupEndIs(t, period);
    GroupEndIs(u, period);
    var a, b := t.minute % 1440 - SessionStart(t), u.minute % 1440 - SessionStart(u);
    RoundsUp(a, period);
    RoundsUp(b, period);
    if t.minute / 1440 == u.minute / 1440 && SessionStart(t) == SessionStart(u) {
      RoundUpIsMonotone(a, b, period);
    }
  }

  // ---------- Quarters of an hour ----------

  lemma QuartersNest(offset: int)
    requires 0 < offset <= 120
    ensures RoundUp(RoundUp(offset, 15), 60) == RoundUp(offset, 60)
  {
    var k, h := (offset - 1) / 15 + 1, (offset - 1) / 60 + 1;
    assert 15 * (k - 1) <= offset - 1 < 15 * k && 60 * (h - 1) <= offset - 1 < 60 * h;
    assert 60 * (h - 1) < 15 * k <= 60 * h;
  }

  lemma QuarterOfHour(offset: int, m: int)
    requires 0 < offset <= 120 && 0 <= m < 12 && offset == RoundUp(offset, 60) - 5 * m
    ensures RoundUp(offset, 15) == RoundUp(offset, 60) - 15 * (m / 3)
  {
    var h := (offset - 1) / 60 + 1;
    assert offset == 60 * h - 5 * m;
    assert 15 * (4 * h - m / 3 - 1) <= offset - 1 < 15 * (4 * h - m / 3);
  }

  /** The hours' groups are unions of the quarters' groups. */
  lemma GroupsNest(t: Instant)
    requires InSession(t, 5)
    ensures GroupEnd(GroupEnd(t, 15), 60) == GroupEnd(t, 60)
  {
    hide RoundUp, Aligned, InSession;
    Clock(t, 5);
    var offset := t.minute % 1440 - SessionStart(t);
    RoundsUp(offset, 15);
    AtClock(t.minute / 1440, SessionStart(t), RoundUp(offset, 15), 15);
    QuartersNest(offset);
  }

  /** A bar that ends 5m minutes before its hour's group belongs to the quarter that ends 15 * (m / 3) before it. */
  lemma QuarterEnd(t: Instant, end: Instant, m: int)
    requires InSession(t, 5) && GroupEnd(t, 60) == end && 0 <= m < 12 && t.minute == end.minute - 5 * m
    ensures GroupEnd(t, 15) == end.Plus(-15 * (m / 3))
  {
    hide RoundUp, Aligned, InSession;
    Clock(t, 5);
    QuarterOfHour(t.minute % 1440 - SessionStart(t), m);
  }
}
