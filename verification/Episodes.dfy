/** The event study of internal/bottomstudy/study.go: episodes of signals, their responses and the summary. */
module Episodes {
  import opened Market
  import opened Signals

  const HORIZON: nat := 20

  datatype StudyRule = One(event: Event) | AnyEvent

  predicate Names(events: seq<Event>, rule: StudyRule) {
    match rule
    case AnyEvent => |events| > 0
    case One(e) => e in events
  }

  datatype Order = Neither | TargetFirst | DrawdownFirst | SameDay

  datatype Status = NoHit | Hit | Censored

  datatype Episode = Episode(
    rule: StudyRule, target: real, start: int, end: int, reference: real, available: nat,
    hitDay: nat, drawdownDay: nat, order: Order, status: Status, signalDates: seq<int>, activeDays: nat)

  // ---------- The response to a signal ----------

  predicate Reaches(bar: Bar, reference: real, target: real) {
    bar.high >= reference * (1.0 + target / 100.0)
  }

  predicate Dips(bar: Bar, reference: real) {
    bar.low <= reference * 0.97
  }

  datatype Response = Response(hit: nat, drawdown: nat)

  /** The response over days 1 to d: the first day of the target, which ends it, and the first drawdown so far. */
  function ResponseTo(bars: seq<Bar>, start: nat, target: real, d: nat): (r: Response)
    requires start + d < |bars|
    ensures r.hit <= d && r.drawdown <= (if r.hit > 0 then r.hit else d)
  {
    if d == 0 then Response(0, 0)
    else
      var before := ResponseTo(bars, start, target, d - 1);
      if before.hit > 0 then before
      else
        var b, reference := bars[start + d], bars[start].close;
        Response(if Reaches(b, reference, target) then d else 0,
                 if before.drawdown == 0 && Dips(b, reference) then d else before.drawdown)
  }

  /** The hit is the first day on target, the drawdown the first dip up to it. */
  lemma {:induction false} ResponseIsFirst(bars: seq<Bar>, start: nat, target: real, d: nat)
    requires start + d < |bars|
    ensures
      var r, reference := ResponseTo(bars, start, target, d), bars[start].close;
      && (r.hit > 0 ==> Reaches(bars[start + r.hit], reference, target))
      && (forall k :: start < k < start + (if r.hit > 0 then r.hit else d + 1) ==> !Reaches(bars[k], reference, target))
      && (r.drawdown > 0 ==> Dips(bars[start + r.drawdown], reference))
      && (forall k ::
            start < k <= start + (if r.hit > 0 then r.hit else d) && (r.drawdown > 0 ==> k < start + r.drawdown) ==>
            !Dips(bars[k], reference))
  {
    hide Reaches, Dips;
    if d > 0 {
      ResponseIsFirst(bars, start, target, d - 1);
    }
  }

  function OrderOf(r: Response): Order {
    if r.hit > 0 && r.drawdown == 0 then TargetFirst
    else if r.drawdown > 0 && (r.hit == 0 || r.drawdown < r.hit) then DrawdownFirst
    else if r.hit > 0 && r.drawdown == r.hit then SameDay
    else Neither
  }

  method Respond(bars: seq<Bar>, start: nat, days: nat, target: real) returns (r: Response, order: Order)
    requires start < |bars|
    ensures r == ResponseTo(bars, start, target, if start + days < |bars| then days else |bars| - start - 1)
      && order == OrderOf(r)
  {
    hide Reaches, Dips;
    var reference := bars[start].close;
    var hit: nat, drawdown: nat := 0, 0;
    ghost var limit := if start + days < |bars| then days else |bars| - start - 1;
    var d := 1;
    while d <= days && start + d < |bars| && hit == 0
      invariant 1 <= d <= limit + 1
      invariant Response(hit, drawdown) == ResponseTo(bars, start, target, d - 1)
    {
      var b := bars[start + d];
      if drawdown == 0 && Dips(b, reference) {
        drawdown := d;
      }
      if Reaches(b, reference, target) {
        hit := d;
      }
      d := d + 1;
    }
    HitStays(bars, start, target, d - 1, limit);
    r := Response(hit, drawdown);
    order := Neither;
    if hit > 0 && drawdown == 0 {
      order := TargetFirst;
    } else if drawdown > 0 && (hit == 0 || drawdown < hit) {
      order := DrawdownFirst;
    } else if hit > 0 && drawdown == hit {
      order := SameDay;
    }
  }

  lemma {:induction false} HitStays(bars: seq<Bar>, start: nat, target: real, d: nat, e: nat)
    requires d <= e && start + e < |bars|
    ensures ResponseTo(bars, start, target, d).hit > 0 ==>
      ResponseTo(bars, start, target, e) == ResponseTo(bars, start, target, d)
    decreases e
  {
    if d < e {
      HitStays(bars, start, target, d, e - 1);
    }
  }

  // ---------- Episodes ----------

  /** A study of one history: the bars, and whether the rule fires or stands on each of them. */
  datatype Study = Study(bars: seq<Bar>, signals: seq<Signal>, from: int, rule: StudyRule, target: real)

  predicate Fires(s: Study, i: nat)
    requires i < |s.bars| == |s.signals|
  {
    s.bars[i].date >= s.from && Names(s.signals[i].events, s.rule)
  }

  function Least(a: int, b: int): int {
    if a < b then a else b
  }

  function Available(s: Study, start: nat): nat
    requires start < |s.bars|
  {
    Least(HORIZON, |s.bars| - start - 1)
  }

  function ResponseAt(s: Study, start: nat): Response
    requires start < |s.bars|
  {
    ResponseTo(s.bars, start, s.target, Available(s, start))
  }

  /** The last bar of the episode that starts here. */
  function EndOf(s: Study, start: nat): (r: nat)
    requires start < |s.bars|
    ensures start <= r < |s.bars|
    ensures ResponseAt(s, start).hit > 0 ==> start < r
  {
    var r := ResponseAt(s, start);
    start + if r.hit > 0 then r.hit else Available(s, start)
  }

  /** Up to where an episode owns its signals: a hit ends it before the close of its last bar. */
  function Owned(s: Study, start: nat): (r: nat)
    requires start < |s.bars|
    ensures start < r <= |s.bars|
  {
    if ResponseAt(s, start).hit > 0 then EndOf(s, start) else EndOf(s, start) + 1
  }

  /** The dates of bars i to j - 1 on which the rule's events are named. */
  function NamedDates(s: Study, i: nat, j: nat): seq<int>
    requires i <= j <= |s.bars| == |s.signals|
  {
    if i == j then []
    else NamedDates(s, i, j - 1) + (if Names(s.signals[j - 1].events, s.rule) then [s.bars[j - 1].date] else [])
  }

  function StandingDays(s: Study, i: nat, j: nat): nat
    requires i <= j <= |s.bars| == |s.signals|
  {
    if i == j then 0 else StandingDays(s, i, j - 1) + if Names(s.signals[j - 1].states, s.rule) then 1 else 0
  }

  function EpisodeAt(s: Study, start: nat): Episode
    requires start < |s.bars| == |s.signals|
  {
    var r := ResponseAt(s, start);
    Episode(
      s.rule, s.target, s.bars[start].date, s.bars[EndOf(s, start)].date, s.bars[start].close, Available(s, start),
      r.hit, r.drawdown, OrderOf(r),
      if r.hit > 0 then Hit else if Available(s, start) < HORIZON then Censored else NoHit,
      [s.bars[start].date] + NamedDates(s, start + 1, Owned(s, start)),
      1 + StandingDays(s, start + 1, Owned(s, start)))
  }

  /** The first bars of the episodes from bar `start` on. */
  function Starts(s: Study, start: nat): seq<nat>
    requires start <= |s.bars| == |s.signals|
    decreases |s.bars| - start
  {
    if start == |s.bars| then []
    else if !Fires(s, start) then Starts(s, start + 1)
    else [start] + Starts(s, Owned(s, start))
  }

  function EpisodesAt(s: Study, starts: seq<nat>): (r: seq<Episode>)
    requires |s.bars| == |s.signals| && forall k :: 0 <= k < |starts| ==> starts[k] < |s.bars|
    ensures |r| == |starts|
  {
    seq(|starts|, k requires 0 <= k < |starts| => EpisodeAt(s, starts[k]))
  }

  /** Places of bars on which the rule fires, from bar `from` on. */
  ghost predicate AllFire(s: Study, from: nat, starts: seq<nat>)
    requires |s.bars| == |s.signals|
  {
    forall k :: 0 <= k < |starts| ==> from <= starts[k] < |s.bars| && Fires(s, starts[k])
  }

  lemma {:induction false} StartsFit(s: Study, start: nat)
    requires start <= |s.bars| == |s.signals|
    ensures AllFire(s, start, Starts(s, start))
    decreases |s.bars| - start
  {
    hide Fires, EndOf;
    if start < |s.bars| {
      if Fires(s, start) {
        StartsFit(s, Owned(s, start));
        var rest := Starts(s, Owned(s, start));
        assert Starts(s, start) == [start] + rest;
      } else {
        StartsFit(s, start + 1);
        assert Starts(s, start) == Starts(s, start + 1);
      }
    }
  }

  function First(s: Study): nat
    ensures First(s) <= |s.bars|
  {
    if |s.bars| < WARMUP - 1 then |s.bars| else WARMUP - 1
  }

  function EpisodesOf(s: Study): seq<Episode>
    requires |s.bars| == |s.signals|
  {
    StartsFit(s, First(s));
    EpisodesAt(s, Starts(s, First(s)))
  }

  /** The signals and standing days of the rest of an episode. */
  method Follow(s: Study, start: nat, hit: bool, end: nat) returns (dates: seq<int>, active: nat)
    requires start <= end < |s.bars| == |s.signals| && (hit ==> start < end)
    ensures var j := if hit then end else end + 1;
      dates == [s.bars[start].date] + NamedDates(s, start + 1, j) && active == 1 + StandingDays(s, start + 1, j)
  {
    dates, active := [s.bars[start].date], 1;
    var i := start + 1;
    while i <= end
      invariant start < i <= end + 1 && (hit ==> i <= end)
      invariant dates == [s.bars[start].date] + NamedDates(s, start + 1, i)
      invariant active == 1 + StandingDays(s, start + 1, i)
    {
      if hit && i == end {
        return;
      }
      if Names(s.signals[i].events, s.rule) {
        dates := dates + [s.bars[i].date];
      }
      if Names(s.signals[i].states, s.rule) {
        active := active + 1;
      }
      i := i + 1;
    }
  }

  method EpisodesFor(s: Study) returns (out: seq<Episode>)
    requires |s.bars| == |s.signals|
    ensures out == EpisodesOf(s)
  {
    hide Fires, ResponseTo, NamedDates, StandingDays, Starts;
    StartsFit(s, First(s));
    out := [];
    var start: nat := WARMUP - 1;
    ghost var done: seq<nat> := [];
    if start > |s.bars| {
      start := |s.bars|;
    }
    while start < |s.bars|
      invariant start <= |s.bars|
      invariant done + Starts(s, start) == Starts(s, First(s))
      invariant (forall k :: 0 <= k < |done| ==> done[k] < |s.bars|) && out == EpisodesAt(s, done)
      decreases |s.bars| - start
    {
      StartsStep(s, start);
      if s.bars[start].date < s.from || !Names(s.signals[start].events, s.rule) {
        FiresIs(s, start);
        start := start + 1;
        continue;
      }
      FiresIs(s, start);
      var available := Least(HORIZON, |s.bars| - start - 1);
      var r, order := Respond(s.bars, start, available, s.target);
      var end: nat, status := start + available, NoHit;
      if r.hit > 0 {
        end, status := start + r.hit, Hit;
      } else if available < HORIZON {
        status := Censored;
      }
      var dates, active := Follow(s, start, r.hit > 0, end);
      var e := Episode(s.rule, s.target, s.bars[start].date, s.bars[end].date, s.bars[start].close, available,
                       r.hit, r.drawdown, order, status, dates, active);
      assert e == EpisodeAt(s, start);
      assert done + ([start] + Starts(s, Owned(s, start))) == (done + [start]) + Starts(s, Owned(s, start));
      done := done + [start];
      out := out + [e];
      assert out == EpisodesAt(s, done);
      start := if r.hit > 0 then end else end + 1;
    }
    StartsStep(s, |s.bars|);
    assert done == Starts(s, First(s));
  }

  lemma FiresIs(s: Study, i: nat)
    requires i < |s.bars| == |s.signals|
    ensures Fires(s, i) <==> s.bars[i].date >= s.from && Names(s.signals[i].events, s.rule)
  {
  }

  lemma StartsStep(s: Study, start: nat)
    requires start <= |s.bars| == |s.signals|
    ensures Starts(s, start) ==
      if start == |s.bars| then []
      else if !Fires(s, start) then Starts(s, start + 1)
      else [start] + Starts(s, Owned(s, start))
  {
  }

  // ---------- Every signal belongs to one episode ----------

  ghost predicate DatesGrow(bars: seq<Bar>) {
    forall i, j :: 0 <= i < j < |bars| ==> bars[i].date < bars[j].date
  }

  /** The dates of bars i to j - 1 on which the rule fires. */
  function Fired(s: Study, i: nat, j: nat): seq<int>
    requires i <= j <= |s.bars| == |s.signals|
  {
    if i == j then [] else Fired(s, i, j - 1) + (if Fires(s, j - 1) then [s.bars[j - 1].date] else [])
  }

  lemma {:induction false} FiredSplits(s: Study, i: nat, m: nat, j: nat)
    requires i <= m <= j <= |s.bars| == |s.signals|
    ensures Fired(s, i, j) == Fired(s, i, m) + Fired(s, m, j)
    decreases j - m
  {
    hide Fires;
    if m < j {
      FiredSplits(s, i, m, j - 1);
    }
  }

  lemma FiredStep(s: Study, i: nat)
    requires i <= |s.bars| == |s.signals|
    ensures Fired(s, i, i) == []
    ensures i < |s.bars| ==> Fired(s, i, i + 1) == if Fires(s, i) then [s.bars[i].date] else []
  {
    hide Fires;
  }

  lemma {:induction false} NamedAreFired(s: Study, i: nat, j: nat)
    requires i <= j <= |s.bars| == |s.signals| && forall k :: i <= k < j ==> s.bars[k].date >= s.from
    ensures NamedDates(s, i, j) == Fired(s, i, j)
    decreases j - i
  {
    if i < j {
      NamedAreFired(s, i, j - 1);
    }
  }

  function Flat(episodes: seq<Episode>): seq<int> {
    if |episodes| == 0 then [] else episodes[0].signalDates + Flat(episodes[1..])
  }

  lemma OwnsItsSignals(s: Study, start: nat)
    requires start < |s.bars| == |s.signals| && DatesGrow(s.bars) && Fires(s, start)
    ensures EpisodeAt(s, start).signalDates == Fired(s, start, Owned(s, start))
  {
    hide EndOf, ResponseTo, NamedDates;
    var j := Owned(s, start);
    NamedAreFired(s, start + 1, j);
    FiredSplits(s, start, start + 1, j);
    assert Fired(s, start, start + 1) == [s.bars[start].date];
  }

  /**
    The signal dates of all episodes, one after the other, are
    the dates on which the rule fires, each once and in order.
  */
  lemma {:induction false} SignalsAreCovered(s: Study, start: nat)
    requires start <= |s.bars| == |s.signals| && DatesGrow(s.bars)
    ensures AllFire(s, start, Starts(s, start))
    ensures Flat(EpisodesAt(s, Starts(s, start))) == Fired(s, start, |s.bars|)
    decreases |s.bars| - start
  {
    hide Fires, Owned, EpisodeAt, Starts, Fired;
    StartsFit(s, start);
    StartsStep(s, start);
    FiredStep(s, start);
    if start == |s.bars| {
    } else if !Fires(s, start) {
      SignalsAreCovered(s, start + 1);
      FiredSplits(s, start, start + 1, |s.bars|);
    } else {
      var j := Owned(s, start);
      SignalsAreCovered(s, j);
      OwnsItsSignals(s, start);
      FiredSplits(s, start, j, |s.bars|);
      assert EpisodesAt(s, Starts(s, start))[1..] == EpisodesAt(s, Starts(s, j));
    }
  }

  /** The episodes of a study hold exactly its signals from the warm-up on. */
  lemma EpisodesHoldAllSignals(s: Study)
    requires |s.bars| == |s.signals| && DatesGrow(s.bars)
    ensures Flat(EpisodesOf(s)) == Fired(s, First(s), |s.bars|)
  {
    SignalsAreCovered(s, First(s));
  }

  ghost predicate InTurn(s: Study, starts: seq<nat>)
    requires forall k :: 0 <= k < |starts| ==> starts[k] < |s.bars|
  {
    forall k :: 0 <= k < |starts| - 1 ==>
      && EndOf(s, starts[k]) <= starts[k + 1]
      && (EndOf(s, starts[k]) == starts[k + 1] ==> ResponseAt(s, starts[k]).hit > 0)
  }

  /** An episode starts where the one before it ended only after a hit, and otherwise later. */
  lemma {:induction false} EpisodesShareEndpoints(s: Study, start: nat)
    requires start <= |s.bars| == |s.signals|
    ensures AllFire(s, start, Starts(s, start)) && InTurn(s, Starts(s, start))
    decreases |s.bars| - start
  {
    hide Fires, EndOf, ResponseTo;
    StartsFit(s, start);
    StartsStep(s, start);
    if start < |s.bars| {
      if Fires(s, start) {
        var rest := Starts(s, Owned(s, start));
        EpisodesShareEndpoints(s, Owned(s, start));
        var r := [start] + rest;
        forall k | 0 <= k < |r| - 1
          ensures EndOf(s, r[k]) <= r[k + 1] && (EndOf(s, r[k]) == r[k + 1] ==> ResponseAt(s, r[k]).hit > 0)
        {
          assert r[k + 1] == rest[k] && (k > 0 ==> r[k] == rest[k - 1]);
        }
      } else {
        EpisodesShareEndpoints(s, start + 1);
      }
    }
  }

  // ---------- The summary ----------

  datatype Summary = Summary(
    episodes: nat, mature: nat, tail: nat, tailHits: nat, hits: nat, noHit: nat,
    byDay: seq<nat>, byCount: seq<nat>, noHitByCount: seq<nat>, targetFirst: nat, drawdownFirst: nat, orderUnknown: nat)

  /** The days the hits are counted by. */
  function Days(): (r: seq<nat>)
    ensures |r| == 5 && r[4] == HORIZON
  {
    [1, 3, 5, 10, 20]
  }

  /** Hits are counted by one, two, three, and four or more signals. */
  function Bucket(signals: nat): (r: nat)
    ensures r <= 4
  {
    if signals < 4 then signals else 4
  }

  const NOTHING := Summary(0, 0, 0, 0, 0, 0, [0, 0, 0, 0, 0], [0, 0, 0, 0, 0], [0, 0, 0, 0, 0], 0, 0, 0)

  ghost predicate Shaped(s: Summary) {
    |s.byDay| == |s.byCount| == |s.noHitByCount| == 5
  }

  /** The day counts that a hit on day `hitDay` raises. */
  function Raised(byDay: seq<nat>, hitDay: nat): (r: seq<nat>)
    requires |byDay| == 5
    ensures |r| == 5 && forall k :: 0 <= k < 5 ==> r[k] == byDay[k] + if hitDay <= Days()[k] then 1 else 0
  {
    seq(5, k requires 0 <= k < 5 => byDay[k] + if hitDay <= Days()[k] then 1 else 0)
  }

  function Count(s: Summary, e: Episode): (r: Summary)
    requires Shaped(s)
    ensures Shaped(r)
  {
    var t := s.(episodes := s.episodes + 1);
    var bucket := Bucket(|e.signalDates|);
    if e.available < HORIZON then t.(tail := t.tail + 1, tailHits := t.tailHits + if e.hitDay > 0 then 1 else 0)
    else if e.hitDay == 0 then
      t.(mature := t.mature + 1, noHit := t.noHit + 1,
        noHitByCount := t.noHitByCount[bucket := t.noHitByCount[bucket] + 1])
    else
      t.(mature := t.mature + 1, hits := t.hits + 1, byCount := t.byCount[bucket := t.byCount[bucket] + 1],
        byDay := Raised(t.byDay, e.hitDay),
        targetFirst := t.targetFirst + if e.order == TargetFirst then 1 else 0,
        drawdownFirst := t.drawdownFirst + if e.order == DrawdownFirst then 1 else 0,
        orderUnknown := t.orderUnknown + if e.order == SameDay then 1 else 0)
  }

  function SummaryOf(episodes: seq<Episode>, rule: StudyRule, target: real): (r: Summary)
    ensures Shaped(r)
  {
    if |episodes| == 0 then NOTHING
    else
      var before, e := SummaryOf(episodes[..|episodes| - 1], rule, target), episodes[|episodes| - 1];
      if e.rule != rule || e.target != target then before else Count(before, e)
  }

  method CountDays(byDay: seq<nat>, hitDay: nat) returns (r: seq<nat>)
    requires |byDay| == 5
    ensures r == Raised(byDay, hitDay)
  {
    r := byDay;
    for k := 0 to 5
      invariant |r| == 5
      invariant forall d :: 0 <= d < 5 ==> r[d] == byDay[d] + if d < k && hitDay <= Days()[d] then 1 else 0
    {
      if hitDay <= Days()[k] {
        r := r[k := r[k] + 1];
      }
    }
  }

  method CountEpisode(before: Summary, e: Episode) returns (s: Summary)
    requires Shaped(before)
    ensures s == Count(before, e)
  {
    hide Raised;
    s := before.(episodes := before.episodes + 1);
    if e.available < HORIZON {
      s := s.(tail := s.tail + 1);
      if e.hitDay > 0 {
        s := s.(tailHits := s.tailHits + 1);
      }
      return;
    }
    s := s.(mature := s.mature + 1);
    var bucket := Bucket(|e.signalDates|);
    if e.hitDay == 0 {
      s := s.(noHit := s.noHit + 1, noHitByCount := s.noHitByCount[bucket := s.noHitByCount[bucket] + 1]);
      return;
    }
    var byDay := CountDays(s.byDay, e.hitDay);
    s := s.(hits := s.hits + 1, byCount := s.byCount[bucket := s.byCount[bucket] + 1], byDay := byDay);
    match e.order {
      case TargetFirst => s := s.(targetFirst := s.targetFirst + 1);
      case DrawdownFirst => s := s.(drawdownFirst := s.drawdownFirst + 1);
      case SameDay => s := s.(orderUnknown := s.orderUnknown + 1);
      case Neither =>
    }
  }

  method Summarize(episodes: seq<Episode>, rule: StudyRule, target: real) returns (s: Summary)
    ensures s == SummaryOf(episodes, rule, target)
  {
    hide Count;
    s := NOTHING;
    for i := 0 to |episodes|
      invariant s == SummaryOf(episodes[..i], rule, target)
    {
      var e := episodes[i];
      assert episodes[..i + 1][..i] == episodes[..i];
      if e.rule != rule || e.target != target {
        continue;
      }
      s := CountEpisode(s, e);
    }
    assert episodes[..|episodes|] == episodes;
  }

  /** An episode as a study makes it. */
  predicate Responded(e: Episode) {
    && e.hitDay <= e.available <= HORIZON && e.order == OrderOf(Response(e.hitDay, e.drawdownDay))
    && e.drawdownDay <= (if e.hitDay > 0 then e.hitDay else e.available) && |e.signalDates| > 0
  }

  function Total(s: seq<nat>): nat
    requires |s| == 5
  {
    s[0] + s[1] + s[2] + s[3] + s[4]
  }

  /** Nothing is lost or counted twice: the summary splits the episodes, the hits and the misses in full. */
  lemma {:induction false} SummarySplits(episodes: seq<Episode>, rule: StudyRule, target: real)
    requires forall k :: 0 <= k < |episodes| ==> Responded(episodes[k])
    ensures var s := SummaryOf(episodes, rule, target);
      && s.episodes == s.mature + s.tail && s.mature == s.hits + s.noHit && s.tailHits <= s.tail
      && s.hits == s.targetFirst + s.drawdownFirst + s.orderUnknown
      && s.byDay[4] == s.hits && s.byDay[0] <= s.byDay[1] <= s.byDay[2] <= s.byDay[3] <= s.byDay[4]
      && Total(s.byCount) == s.hits && Total(s.noHitByCount) == s.noHit
  {
    if |episodes| > 0 {
      var e := episodes[|episodes| - 1];
      SummarySplits(episodes[..|episodes| - 1], rule, target);
      CountSplits(SummaryOf(episodes[..|episodes| - 1], rule, target), e);
    }
  }

  lemma CountSplits(before: Summary, e: Episode)
    requires Shaped(before) && Responded(e)
    requires before.episodes == before.mature + before.tail && before.mature == before.hits + before.noHit
      && before.tailHits <= before.tail
    requires before.hits == before.targetFirst + before.drawdownFirst + before.orderUnknown
    requires before.byDay[4] == before.hits
    requires before.byDay[0] <= before.byDay[1] <= before.byDay[2] <= before.byDay[3] <= before.byDay[4]
    requires Total(before.byCount) == before.hits && Total(before.noHitByCount) == before.noHit
    ensures var s := Count(before, e);
      && s.episodes == s.mature + s.tail && s.mature == s.hits + s.noHit && s.tailHits <= s.tail
      && s.hits == s.targetFirst + s.drawdownFirst + s.orderUnknown
      && s.byDay[4] == s.hits && s.byDay[0] <= s.byDay[1] <= s.byDay[2] <= s.byDay[3] <= s.byDay[4]
      && Total(s.byCount) == s.hits && Total(s.noHitByCount) == s.noHit
  {
  }

  lemma EpisodesAreResponded(s: Study, k: nat)
    requires |s.bars| == |s.signals| && k < |EpisodesOf(s)|
    ensures Responded(EpisodesOf(s)[k]) && EpisodesOf(s)[k].rule == s.rule && EpisodesOf(s)[k].target == s.target
  {
    hide ResponseTo, NamedDates, StandingDays, Starts;
    StartsFit(s, First(s));
  }
}
