/** What the episodes of a study and their summary are, in the prices, the signals and the days. */
module EpisodeLaws {
  import opened Market
  import opened Signals
  import opened Episodes

  // ---------- one episode ----------

  /** The events, or the states, hold what the rule asks for. */
  predicate Holds(events: seq<Event>, rule: StudyRule) {
    match rule
    case AnyEvent => events != []
    case One(e) => e in events
  }

  /** Day `d` after the start is the first of `last` whose high reaches the goal; 0 when none does. */
  ghost predicate FirstHit(bars: seq<Bar>, start: nat, goal: real, last: nat, d: nat)
    requires start + last < |bars|
  {
    && d <= last && (d > 0 ==> bars[start + d].high >= goal)
    && (forall k :: start < k <= start + last && (d == 0 || k < start + d) ==> bars[k].high < goal)
  }

  /** The same for the first low at or below a price. */
  ghost predicate FirstDip(bars: seq<Bar>, start: nat, floor: real, last: nat, d: nat)
    requires start + last < |bars|
  {
    && d <= last && (d > 0 ==> bars[start + d].low <= floor)
    && (forall k :: start < k <= start + last && (d == 0 || k < start + d) ==> bars[k].low > floor)
  }

  /** The price that lies the given percentage above the reference. */
  function Goal(reference: real, target: real): real {
    reference * (1.0 + target / 100.0)
  }

  /** The price that lies three percent below the reference. */
  function Floor(reference: real): real {
    reference * 0.97
  }

  lemma DayLaw(b: Bar, reference: real, target: real)
    ensures Reaches(b, reference, target) <==> b.high >= Goal(reference, target)
    ensures Dips(b, reference) <==> b.low <= Floor(reference)
  {
  }

  lemma ResponseLaw(bars: seq<Bar>, start: nat, target: real, n: nat)
    requires start + n < |bars|
    ensures var r, reference := ResponseTo(bars, start, target, n), bars[start].close;
      && FirstHit(bars, start, Goal(reference, target), n, r.hit)
      && FirstDip(bars, start, Floor(reference), if r.hit > 0 then r.hit else n, r.drawdown)
  {
    hide ResponseTo, Reaches, Dips, Goal, Floor;
    ResponseIsFirst(bars, start, target, n);
    forall k | start <= k < |bars|
      ensures Reaches(bars[k], bars[start].close, target) <==> bars[k].high >= Goal(bars[start].close, target)
      ensures Dips(bars[k], bars[start].close) <==> bars[k].low <= Floor(bars[start].close)
    {
      DayLaw(bars[k], bars[start].close, target);
    }
  }

  /** The days after the start, before the last, on which the rule still stands. */
  function Standing(s: Study, start: nat, last: nat): set<nat>
    requires last <= |s.bars| == |s.signals|
  {
    set i: nat | start < i < last && Holds(s.signals[i].states, s.rule)
  }

  lemma StandingStep(s: Study, start: nat, last: nat)
    requires start + 1 < last <= |s.bars| == |s.signals|
    ensures var before := Standing(s, start, last - 1);
      && last - 1 !in before
      && Standing(s, start, last)
        == (if Holds(s.signals[last - 1].states, s.rule) then before + {last - 1} else before)
  {
    hide Holds;
  }

  lemma NamesHolds(events: seq<Event>, rule: StudyRule)
    ensures Names(events, rule) <==> Holds(events, rule)
  {
  }

  lemma {:induction false} StandingAre(s: Study, start: nat, last: nat)
    requires start < last <= |s.bars| == |s.signals|
    ensures StandingDays(s, start + 1, last) == |Standing(s, start, last)|
    decreases last
  {
    hide Holds, Names, Standing;
    if last == start + 1 {
      NoneStanding(s, start);
    } else {
      StandingAre(s, start, last - 1);
      StandingStep(s, start, last);
      NamesHolds(s.signals[last - 1].states, s.rule);
    }
  }

  lemma NoneStanding(s: Study, start: nat)
    requires start < |s.bars| == |s.signals|
    ensures Standing(s, start, start + 1) == {}
  {
  }

  /** The least of two numbers of days. */
  function Fewer(a: nat, b: nat): nat {
    if a <= b then a else b
  }

  /**
   * An episode starts on a day past the warm-up, in the dates of the study, whose events hold the rule. It looks at up
   * to twenty later days. Its hit is the first of them whose high is the target above the close of the start. Its
   * drawdown is the first day up to the hit whose low is three percent below; their order, its status, its end and
   * its standing days follow.
   */
  lemma EpisodeIs(s: Study, k: nat) returns (start: nat)
    requires |s.bars| == |s.signals| && k < |EpisodesOf(s)|
    ensures 59 <= start < |s.bars|
    ensures s.bars[start].date >= s.from && Holds(s.signals[start].events, s.rule)
    ensures
      var e, close, n := EpisodesOf(s)[k], s.bars[start].close, Fewer(20, |s.bars| - start - 1);
      && e.rule == s.rule && e.target == s.target && e.start == s.bars[start].date && e.reference == close
      && e.available == n
      && FirstHit(s.bars, start, Goal(close, s.target), n, e.hitDay)
      && FirstDip(s.bars, start, Floor(close), if e.hitDay > 0 then e.hitDay else n, e.drawdownDay)
      && (e.order == TargetFirst <==> e.hitDay > 0 && e.drawdownDay == 0)
      && (e.order == DrawdownFirst <==> e.drawdownDay > 0 && e.drawdownDay != e.hitDay)
      && (e.order == SameDay <==> e.hitDay > 0 && e.drawdownDay == e.hitDay)
      && (e.status == Hit <==> e.hitDay > 0) && (e.status == Censored <==> e.hitDay == 0 && n < 20)
      && e.end == s.bars[start + (if e.hitDay > 0 then e.hitDay else n)].date
      && e.activeDays == 1 + |Standing(s, start, start + (if e.hitDay > 0 then e.hitDay else n + 1))|
  {
    hide ResponseTo, NamedDates, StandingDays, Starts, FirstHit, FirstDip, Goal, Floor;
    StartsFit(s, First(s));
    start := Starts(s, First(s))[k];
    ResponseLaw(s.bars, start, s.target, Available(s, start));
    StandingAre(s, start, Owned(s, start));
    FiresMeans(s, start);
  }

  lemma FiresMeans(s: Study, i: nat)
    requires i < |s.bars| == |s.signals|
    ensures Episodes.Fires(s, i) <==> s.bars[i].date >= s.from && Holds(s.signals[i].events, s.rule)
  {
  }

  // ---------- the summary ----------

  /** The numbers of a summary. */
  datatype Column = All | Mature | Tail | TailHits | Misses | Hits | HitBy(k: nat) | HitWith(b: nat) | MissWith(b: nat)
    | Ordered(order: Order)

  /** The k-th of the days that hits are counted by. */
  function DayOf(k: nat): nat {
    if k == 0 then 1 else if k == 1 then 3 else if k == 2 then 5 else if k == 3 then 10 else 20
  }

  /** As many signals as the bucket says, the last bucket taking all with four or more. */
  predicate InBucket(e: Episode, b: nat) {
    if b == 4 then |e.signalDates| >= 4 else |e.signalDates| == b
  }

  /** The episodes that a number counts. */
  predicate Counted(e: Episode, rule: StudyRule, target: real, c: Column) {
    && e.rule == rule && e.target == target
    && match c
       case All => true
       case Mature => e.available >= 20
       case Tail => e.available < 20
       case TailHits => e.available < 20 && e.hitDay > 0
       case Misses => e.available >= 20 && e.hitDay == 0
       case Hits => e.available >= 20 && e.hitDay > 0
       case HitBy(k) => e.available >= 20 && 0 < e.hitDay <= DayOf(k)
       case HitWith(b) => e.available >= 20 && e.hitDay > 0 && InBucket(e, b)
       case MissWith(b) => e.available >= 20 && e.hitDay == 0 && InBucket(e, b)
       case Ordered(order) => e.available >= 20 && e.hitDay > 0 && e.order == order
  }

  function NumberOf(s: Summary, c: Column): nat
    requires Shaped(s) && InRange(c)
  {
    match c
    case All => s.episodes
    case Mature => s.mature
    case Tail => s.tail
    case TailHits => s.tailHits
    case Misses => s.noHit
    case Hits => s.hits
    case HitBy(k) => s.byDay[k]
    case HitWith(b) => s.byCount[b]
    case MissWith(b) => s.noHitByCount[b]
    case Ordered(order) =>
      if order == TargetFirst then s.targetFirst else if order == DrawdownFirst then s.drawdownFirst
      else s.orderUnknown
  }

  predicate InRange(c: Column) {
    match c
    case HitBy(k) => k < 5
    case HitWith(b) => b < 5
    case MissWith(b) => b < 5
    case Ordered(order) => order != Neither
    case _ => true
  }

  function HowMany(episodes: seq<Episode>, rule: StudyRule, target: real, c: Column): nat {
    if |episodes| == 0 then 0 else
      HowMany(episodes[..|episodes| - 1], rule, target, c)
      + if Counted(episodes[|episodes| - 1], rule, target, c) then 1 else 0
  }

  lemma CountMeans(s: Summary, e: Episode, c: Column)
    requires Shaped(s) && InRange(c)
    ensures NumberOf(Episodes.Count(s, e), c) == NumberOf(s, c) + if Counted(e, e.rule, e.target, c) then 1 else 0
  {
  }

  /** Every number of a summary is the number of the episodes it counts. */
  lemma {:induction false} SummaryMeans(episodes: seq<Episode>, rule: StudyRule, target: real, c: Column)
    requires InRange(c)
    ensures NumberOf(SummaryOf(episodes, rule, target), c) == HowMany(episodes, rule, target, c)
  {
    hide Episodes.Count, NumberOf;
    if |episodes| > 0 {
      var rest, e := episodes[..|episodes| - 1], episodes[|episodes| - 1];
      SummaryMeans(rest, rule, target, c);
      if e.rule == rule && e.target == target {
        CountMeans(SummaryOf(rest, rule, target), e, c);
      }
    } else {
      NothingCounted(c);
    }
  }

  lemma NothingCounted(c: Column)
    requires InRange(c)
    ensures NumberOf(NOTHING, c) == 0
  {
  }
}
