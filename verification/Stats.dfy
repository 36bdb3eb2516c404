/** The statistics of a list of trades: one fold over the trades of a split, then the averages. */
module Stats {
  import opened Money
  import opened Market
  import opened Trading
  import opened Simulator
  import opened Ledger
  import opened Sorting

  datatype TradeStats = TradeStats(
    opportunities: int,
    entries: int,
    skipped: int,
    unknownEntries: int,
    samples: int,
    resolved: int,
    unresolved: int,
    dates: int,
    stocks: int,
    targets: int,
    rate: real,
    positive: int,
    profitRate: real,
    entryPositive: int,
    nextDay: int,
    jointNextDay: int,
    stops: int,
    stopExceeded: int,
    ambiguous: int,
    stopBlockedT1: int,
    targetBlockedT1: int,
    meanNet: real,
    meanNetCash: real,
    worstNet: real,
    p05Net: real,
    tailMeanNet: real,
    meanDays: real,
    meanBatches: real,
    meanInvested: real,
    retainedTargets: int,
    lostTargets: int,
    retention: real)

  const NO_STATS := TradeStats(0, 0, 0, 0, 0, 0, 0, 0, 0, 0, 0.0, 0, 0.0, 0, 0, 0, 0, 0, 0, 0, 0, 0.0, 0.0, 0.0, 0.0,
    0.0, 0.0, 0.0, 0.0, 0, 0, 0.0)

  /** The counters while the fold runs. */
  datatype Tally = Tally(s: TradeStats, dates: set<int>, stocks: set<string>, nets: seq<real>, baselineTargets: int)

  function One(b: bool): int {
    if b then 1 else 0
  }

  type Baseline = map<TradeId, Trade>

  /** Whether the baseline trade of the same opportunity reached its target. */
  predicate BaselineHit(baseline: Baseline, id: TradeId) {
    id in baseline && baseline[id].targetHit
  }

  /** One trade of the counted split. */
  function Count(c: Tally, t: Trade, baselineHit: bool): Tally {
    var s := c.s.(opportunities := c.s.opportunities + 1,
      retainedTargets := c.s.retainedTargets + One(baselineHit && t.targetHit));
    var c1 := c.(s := s, baselineTargets := c.baselineTargets + One(baselineHit));
    if t.entryDate.None? then
      c1.(s := if t.status == EntrySkipped then s.(skipped := s.skipped + 1)
        else s.(unknownEntries := s.unknownEntries + 1))
    else
      var s2 := s.(entries := s.entries + 1,
                   meanBatches := s.meanBatches + t.batchesFilled as real,
                   meanInvested := s.meanInvested + t.invested,
                   entryPositive := s.entryPositive + One(t.entryCloseNetPct > 0.0),
                   ambiguous := s.ambiguous + One(t.ambiguous),
                   stopBlockedT1 := s.stopBlockedT1 + One(t.blockedByT1),
                   targetBlockedT1 := s.targetBlockedT1 + One(t.targetBlockedT1),
                   stops := s.stops + One(t.stopTriggered));
      var c2 := c1.(s := s2, dates := c.dates + {t.signalDate}, stocks := c.stocks + {t.code});
      if !Resolved(t) then c2.(s := s2.(unresolved := s2.unresolved + 1)) else
        c2.(s := s2.(resolved := s2.resolved + 1,
                     targets := s2.targets + One(t.targetHit),
                     nextDay := s2.nextDay + One(t.targetHit && t.targetDay == 1),
                     jointNextDay := s2.jointNextDay + One(t.targetHit && t.targetDay == 1 && t.entryCloseNetPct > 0.0),
                     positive := s2.positive + One(t.netPct > 0.0),
                     stopExceeded := s2.stopExceeded + One(t.stopExceeded),
                     meanNet := s2.meanNet + t.netPct,
                     meanNetCash := s2.meanNetCash + t.invested * t.netPct / 100.0,
                     meanDays := s2.meanDays + t.holdingDays as real),
            nets := c.nets + [t.netPct])
  }

  function Fold(trades: seq<Trade>, split: Split, baseline: Baseline): (c: Tally)
    ensures |c.nets| == c.s.resolved
    ensures 0 <= c.s.targets <= c.s.resolved && 0 <= c.s.unresolved && 0 <= c.s.skipped && 0 <= c.s.unknownEntries
    ensures c.s.entries == c.s.resolved + c.s.unresolved
    ensures c.s.opportunities == c.s.entries + c.s.skipped + c.s.unknownEntries
    ensures 0 <= c.s.retainedTargets <= c.baselineTargets <= c.s.opportunities
  {
    if trades == [] then Tally(NO_STATS, {}, {}, [], 0) else
      var c := Fold(trades[..|trades| - 1], split, baseline);
      var t := trades[|trades| - 1];
      if t.split != split then c else Count(c, t, BaselineHit(baseline, t.id))
  }

  function Sum(a: seq<real>): real {
    if a == [] then 0.0 else Sum(a[..|a| - 1]) + a[|a| - 1]
  }

  /** The tail of the worst five percent, at least one trade. */
  function TailSize(n: int): (k: int)
    ensures n >= 1 ==> 1 <= k <= n
  {
    var k := Ceil(0.05 * n as real);
    if k < 1 then 1 else k
  }

  function Averages(c: Tally): (s: TradeStats)
    requires |c.nets| == c.s.resolved && c.s.entries >= 0
  {
    var s := c.s.(samples := c.s.entries + c.s.unknownEntries, dates := |c.dates|, stocks := |c.stocks|,
                  lostTargets := c.baselineTargets - c.s.retainedTargets,
                  retention := if c.baselineTargets > 0 then c.s.retainedTargets as real / c.baselineTargets as real
                    else 0.0);
    var s1 := if s.samples > 0
              then s.(rate := s.targets as real / s.samples as real,
                profitRate := s.positive as real / s.samples as real)
              else s;
    var s2 := if s.entries > 0
              then s1.(meanBatches := s.meanBatches / s.entries as real,
                meanInvested := s.meanInvested / s.entries as real)
              else s1;
    if s.resolved > 0 then
      var n := s.resolved;
      var nets := Sorted(c.nets);
      var k := (0.05 * (n - 1) as real).Floor;
      s2.(meanNet := s.meanNet / n as real, meanNetCash := s.meanNetCash / n as real,
        meanDays := s.meanDays / n as real,
          worstNet := nets[0], p05Net := nets[k], tailMeanNet := Sum(nets[..TailSize(n)]) / TailSize(n) as real)
    else s2
  }

  function StatsOf(trades: seq<Trade>, split: Split, baseline: Baseline): TradeStats {
    Averages(Fold(trades, split, baseline))
  }

  method ComputeStats(trades: seq<Trade>, split: Split, baseline: Baseline) returns (s: TradeStats)
    ensures s == StatsOf(trades, split, baseline)
  {
    hide Count;
    var c := Tally(NO_STATS, {}, {}, [], 0);
    for i := 0 to |trades|
      invariant c == Fold(trades[..i], split, baseline)
    {
      assert trades[..i + 1][..i] == trades[..i];
      if trades[i].split == split {
        c := Count(c, trades[i], BaselineHit(baseline, trades[i].id));
      }
    }
    assert trades[..|trades|] == trades;
    s := Averages(c);
  }

  // ---------- which trades the statistics depend on ----------

  function OfSplit(trades: seq<Trade>, split: Split): seq<Trade> {
    if trades == [] then [] else
      var rest := OfSplit(trades[..|trades| - 1], split);
      if trades[|trades| - 1].split == split then rest + [trades[|trades| - 1]] else rest
  }

  /**
    The statistics of a split see only the trades of that split,
    and of the baseline only whether those trades were hit.
  */
  lemma {:induction false} StatsOfOneSplit(a: seq<Trade>, b: seq<Trade>, split: Split, ba: Baseline, bb: Baseline)
    requires OfSplit(a, split) == OfSplit(b, split)
    requires forall t :: t in OfSplit(a, split) ==> BaselineHit(ba, t.id) == BaselineHit(bb, t.id)
    ensures StatsOf(a, split, ba) == StatsOf(b, split, bb)
  {
    FoldOfSplit(a, split, ba);
    FoldOfSplit(b, split, bb);
    FoldBaseline(OfSplit(a, split), split, ba, bb);
  }

  lemma {:induction false} FoldOfSplit(a: seq<Trade>, split: Split, baseline: Baseline)
    ensures Fold(a, split, baseline) == Fold(OfSplit(a, split), split, baseline)
  {
    if a != [] {
      FoldOfSplit(a[..|a| - 1], split, baseline);
      var rest, t := OfSplit(a[..|a| - 1], split), a[|a| - 1];
      assert (rest + [t])[..|rest|] == rest;
    }
  }

  lemma {:induction false} FoldBaseline(a: seq<Trade>, split: Split, ba: Baseline, bb: Baseline)
    requires forall t :: t in a ==> BaselineHit(ba, t.id) == BaselineHit(bb, t.id)
    ensures Fold(a, split, ba) == Fold(a, split, bb)
  {
    if a != [] {
      var t := a[|a| - 1];
      assert t in a;
      assert forall u :: u in a[..|a| - 1] ==> u in a;
      FoldBaseline(a[..|a| - 1], split, ba, bb);
    }
  }

  // ---------- what the counters count ----------

  predicate EnteredIn(t: Trade, split: Split) {
    t.split == split && t.entryDate.Some?
  }

  predicate ResolvedIn(t: Trade, split: Split) {
    EnteredIn(t, split) && Resolved(t)
  }

  datatype Counter =
    | Chances | Entries | Skips | Unknowns | Samples | Resolutions | Pendings | Hits | NextDays | JointNextDays
    | Profits | EntryProfits | StopExits | Excesses | Ambiguities | BlockedStops | BlockedTargets | Retained | Lost

  /** What a counter is named after. */
  predicate Counts(counter: Counter, t: Trade, split: Split, baseline: Baseline) {
    match counter
    case Chances => t.split == split
    case Entries => EnteredIn(t, split)
    case Skips => t.split == split && t.entryDate.None? && t.status == EntrySkipped
    case Unknowns => t.split == split && t.entryDate.None? && t.status != EntrySkipped
    case Samples => t.split == split && !(t.entryDate.None? && t.status == EntrySkipped)
    case Resolutions => ResolvedIn(t, split)
    case Pendings => EnteredIn(t, split) && !Resolved(t)
    case Hits => ResolvedIn(t, split) && t.targetHit
    case NextDays => ResolvedIn(t, split) && t.targetHit && t.targetDay == 1
    case JointNextDays => ResolvedIn(t, split) && t.targetHit && t.targetDay == 1 && t.entryCloseNetPct > 0.0
    case Profits => ResolvedIn(t, split) && t.netPct > 0.0
    case EntryProfits => EnteredIn(t, split) && t.entryCloseNetPct > 0.0
    case StopExits => EnteredIn(t, split) && t.stopTriggered
    case Excesses => ResolvedIn(t, split) && t.stopExceeded
    case Ambiguities => EnteredIn(t, split) && t.ambiguous
    case BlockedStops => EnteredIn(t, split) && t.blockedByT1
    case BlockedTargets => EnteredIn(t, split) && t.targetBlockedT1
    case Retained => t.split == split && BaselineHit(baseline, t.id) && t.targetHit
    case Lost => t.split == split && BaselineHit(baseline, t.id) && !t.targetHit
  }

  function Reading(s: TradeStats, counter: Counter): int {
    match counter
    case Chances => s.opportunities
    case Entries => s.entries
    case Skips => s.skipped
    case Unknowns => s.unknownEntries
    case Samples => s.samples
    case Resolutions => s.resolved
    case Pendings => s.unresolved
    case Hits => s.targets
    case NextDays => s.nextDay
    case JointNextDays => s.jointNextDay
    case Profits => s.positive
    case EntryProfits => s.entryPositive
    case StopExits => s.stops
    case Excesses => s.stopExceeded
    case Ambiguities => s.ambiguous
    case BlockedStops => s.stopBlockedT1
    case BlockedTargets => s.targetBlockedT1
    case Retained => s.retainedTargets
    case Lost => s.lostTargets
  }

  /** How many of the trades a counter is about. */
  function HowMany(trades: seq<Trade>, counter: Counter, split: Split, baseline: Baseline): nat {
    if |trades| == 0 then 0
    else
      HowMany(trades[..|trades| - 1], counter, split, baseline)
      + if Counts(counter, trades[|trades| - 1], split, baseline) then 1 else 0
  }

  /** The counters that are raised trade by trade; the other two are computed from them in the end. */
  predicate Raised(counter: Counter) {
    counter != Samples && counter != Lost
  }

  /** The counters that only resolved trades raise. */
  predicate AtTheEnd(counter: Counter) {
    || counter == Resolutions || counter == Hits || counter == NextDays || counter == JointNextDays
    || counter == Profits || counter == Excesses
  }

  lemma CountAtTheEnd(c: Tally, t: Trade, counter: Counter, split: Split, baseline: Baseline)
    requires t.split == split && AtTheEnd(counter)
    ensures Reading(Count(c, t, BaselineHit(baseline, t.id)).s, counter)
         == Reading(c.s, counter) + if Counts(counter, t, split, baseline) then 1 else 0
  {
    hide Resolved, BaselineHit;
  }

  lemma CountOnEntry(c: Tally, t: Trade, counter: Counter, split: Split, baseline: Baseline)
    requires t.split == split && Raised(counter) && !AtTheEnd(counter)
    ensures Reading(Count(c, t, BaselineHit(baseline, t.id)).s, counter)
         == Reading(c.s, counter) + if Counts(counter, t, split, baseline) then 1 else 0
  {
    hide Resolved, BaselineHit;
  }

  lemma CountStep(c: Tally, t: Trade, counter: Counter, split: Split, baseline: Baseline)
    requires t.split == split && Raised(counter)
    ensures Reading(Count(c, t, BaselineHit(baseline, t.id)).s, counter)
         == Reading(c.s, counter) + if Counts(counter, t, split, baseline) then 1 else 0
  {
    hide Reading, Count, Counts;
    if AtTheEnd(counter) {
      CountAtTheEnd(c, t, counter, split, baseline);
    } else {
      CountOnEntry(c, t, counter, split, baseline);
    }
  }

  lemma {:induction false} CountersOfFold(trades: seq<Trade>, counter: Counter, split: Split, baseline: Baseline)
    requires Raised(counter)
    ensures Reading(Fold(trades, split, baseline).s, counter) == HowMany(trades, counter, split, baseline)
  {
    hide Reading, Count;
    if |trades| > 0 {
      var rest, t := trades[..|trades| - 1], trades[|trades| - 1];
      CountersOfFold(rest, counter, split, baseline);
      if t.split == split {
        CountStep(Fold(rest, split, baseline), t, counter, split, baseline);
      }
    } else {
      NoReading(counter);
    }
  }

  lemma NoReading(counter: Counter)
    ensures Reading(NO_STATS, counter) == 0
  {
  }

  /** Samples are the entered trades and those that might have been. */
  lemma {:induction false} SamplesSplit(trades: seq<Trade>, split: Split, baseline: Baseline)
    ensures HowMany(trades, Samples, split, baseline)
         == HowMany(trades, Entries, split, baseline) + HowMany(trades, Unknowns, split, baseline)
  {
    hide Resolved, BaselineHit;
    if |trades| > 0 {
      SamplesSplit(trades[..|trades| - 1], split, baseline);
    }
  }

  /** Baseline targets are retained or lost. */
  lemma {:induction false} TargetsSplit(trades: seq<Trade>, split: Split, baseline: Baseline)
    ensures Fold(trades, split, baseline).baselineTargets
         == HowMany(trades, Retained, split, baseline) + HowMany(trades, Lost, split, baseline)
  {
    hide Resolved, BaselineHit;
    if |trades| > 0 {
      TargetsSplit(trades[..|trades| - 1], split, baseline);
      BaselineStep(Fold(trades[..|trades| - 1], split, baseline), trades[|trades| - 1], baseline);
    }
  }

  lemma BaselineStep(c: Tally, t: Trade, baseline: Baseline)
    ensures Count(c, t, BaselineHit(baseline, t.id)).baselineTargets
      == c.baselineTargets + One(BaselineHit(baseline, t.id))
  {
    hide Resolved, BaselineHit;
  }

  /** What the averaging step leaves of a counter. */
  lemma ReadingKept(c: Tally, counter: Counter)
    requires |c.nets| == c.s.resolved && c.s.entries >= 0
    ensures Raised(counter) ==> Reading(Averages(c), counter) == Reading(c.s, counter)
    ensures Reading(Averages(c), Samples) == Reading(c.s, Entries) + Reading(c.s, Unknowns)
    ensures Reading(Averages(c), Lost) == c.baselineTargets - Reading(c.s, Retained)
  {
    hide Sorted, Sum, TailSize;
  }

  /** Each counter of the statistics is the number of trades of the split that it is named after. */
  lemma CountersCount(trades: seq<Trade>, counter: Counter, split: Split, baseline: Baseline)
    ensures Reading(StatsOf(trades, split, baseline), counter) == HowMany(trades, counter, split, baseline)
  {
    hide Fold, HowMany, Averages, Reading;
    ReadingKept(Fold(trades, split, baseline), counter);
    if Raised(counter) {
      CountersOfFold(trades, counter, split, baseline);
    } else if counter == Samples {
      CountersOfFold(trades, Entries, split, baseline);
      CountersOfFold(trades, Unknowns, split, baseline);
      SamplesSplit(trades, split, baseline);
    } else {
      CountersOfFold(trades, Retained, split, baseline);
      TargetsSplit(trades, split, baseline);
    }
  }

  /** The retention is the share of the baseline's targets that are hit again. */
  lemma RetentionIsShare(trades: seq<Trade>, split: Split, baseline: Baseline)
    ensures var kept, lost := HowMany(trades, Retained, split, baseline), HowMany(trades, Lost, split, baseline);
      StatsOf(trades, split, baseline).retention == if kept + lost > 0 then kept as real / (kept + lost) as real
        else 0.0
  {
    hide Fold, HowMany, Sorted, Sum, TailSize;
    CountersOfFold(trades, Retained, split, baseline);
    TargetsSplit(trades, split, baseline);
  }

  // ---------- how many dates and stocks ----------

  ghost predicate SomeEntry(trades: seq<Trade>, split: Split, date: int) {
    exists k :: 0 <= k < |trades| && EnteredIn(trades[k], split) && trades[k].signalDate == date
  }

  ghost predicate SomeEntryOf(trades: seq<Trade>, split: Split, code: string) {
    exists k :: 0 <= k < |trades| && EnteredIn(trades[k], split) && trades[k].code == code
  }

  lemma EntryStep(trades: seq<Trade>, split: Split)
    requires |trades| > 0
    ensures var rest, t := trades[..|trades| - 1], trades[|trades| - 1];
      && (forall d :: SomeEntry(trades, split, d) <==>
           SomeEntry(rest, split, d) || (EnteredIn(t, split) && t.signalDate == d))
      && (forall c :: SomeEntryOf(trades, split, c) <==>
           SomeEntryOf(rest, split, c) || (EnteredIn(t, split) && t.code == c))
  {
    hide EnteredIn;
    var rest, t := trades[..|trades| - 1], trades[|trades| - 1];
    assert forall k :: 0 <= k < |rest| ==> rest[k] == trades[k];
    assert trades[|rest|] == t;
    forall d ensures SomeEntry(trades, split, d) <==>
      SomeEntry(rest, split, d) || (EnteredIn(t, split) && t.signalDate == d) {
      if k :| 0 <= k < |rest| && EnteredIn(rest[k], split) && rest[k].signalDate == d {
        assert trades[k] == rest[k];
      }
    }
    forall c ensures SomeEntryOf(trades, split, c) <==>
      SomeEntryOf(rest, split, c) || (EnteredIn(t, split) && t.code == c) {
      if k :| 0 <= k < |rest| && EnteredIn(rest[k], split) && rest[k].code == c {
        assert trades[k] == rest[k];
      }
    }
  }

  lemma SetsStep(c: Tally, t: Trade, hit: bool)
    ensures var r := Count(c, t, hit);
      && r.dates == c.dates + (if t.entryDate.Some? then {t.signalDate} else {})
      && r.stocks == c.stocks + (if t.entryDate.Some? then {t.code} else {})
  {
    hide Resolved;
  }

  lemma {:induction false} SetsOfFold(trades: seq<Trade>, split: Split, baseline: Baseline)
    ensures forall d :: d in Fold(trades, split, baseline).dates <==> SomeEntry(trades, split, d)
    ensures forall c :: c in Fold(trades, split, baseline).stocks <==> SomeEntryOf(trades, split, c)
  {
    hide Resolved, BaselineHit, Count, SomeEntry, SomeEntryOf;
    if |trades| > 0 {
      var rest, t := trades[..|trades| - 1], trades[|trades| - 1];
      SetsOfFold(rest, split, baseline);
      EntryStep(trades, split);
      SetsStep(Fold(rest, split, baseline), t, BaselineHit(baseline, t.id));
    } else {
      NoEntries(trades, split);
    }
  }

  lemma NoEntries(trades: seq<Trade>, split: Split)
    requires trades == []
    ensures forall d :: !SomeEntry(trades, split, d)
    ensures forall c :: !SomeEntryOf(trades, split, c)
  {
  }

  /** Dates and stocks count the different signal dates and codes of the entered trades. */
  lemma DatesAndStocks(trades: seq<Trade>, split: Split, baseline: Baseline)
      returns (dates: set<int>, stocks: set<string>)
    ensures StatsOf(trades, split, baseline).dates == |dates| && StatsOf(trades, split, baseline).stocks == |stocks|
    ensures forall d :: d in dates <==> SomeEntry(trades, split, d)
    ensures forall c :: c in stocks <==> SomeEntryOf(trades, split, c)
  {
    hide Fold, Sorted, Sum, TailSize, SomeEntry, SomeEntryOf;
    SetsOfFold(trades, split, baseline);
    dates, stocks := Fold(trades, split, baseline).dates, Fold(trades, split, baseline).stocks;
  }

  datatype Total = NetTotal | CashTotal | DaysTotal | InvestedTotal | BatchesTotal

  function Share(total: Total, t: Trade, split: Split): real {
    match total
    case NetTotal => if ResolvedIn(t, split) then t.netPct else 0.0
    case CashTotal => if ResolvedIn(t, split) then t.invested * t.netPct / 100.0 else 0.0
    case DaysTotal => if ResolvedIn(t, split) then t.holdingDays as real else 0.0
    case InvestedTotal => if EnteredIn(t, split) then t.invested else 0.0
    case BatchesTotal => if EnteredIn(t, split) then t.batchesFilled as real else 0.0
  }

  function Summed(s: TradeStats, total: Total): real {
    match total
    case NetTotal => s.meanNet
    case CashTotal => s.meanNetCash
    case DaysTotal => s.meanDays
    case InvestedTotal => s.meanInvested
    case BatchesTotal => s.meanBatches
  }

  function Overall(trades: seq<Trade>, total: Total, split: Split): real {
    if |trades| == 0 then 0.0
    else Overall(trades[..|trades| - 1], total, split) + Share(total, trades[|trades| - 1], split)
  }

  lemma SumStep(c: Tally, t: Trade, hit: bool, total: Total, split: Split)
    requires t.split == split
    ensures Summed(Count(c, t, hit).s, total) == Summed(c.s, total) + Share(total, t, split)
  {
    hide Resolved;
  }

  lemma {:induction false} SumsOfFold(trades: seq<Trade>, total: Total, split: Split, baseline: Baseline)
    ensures Summed(Fold(trades, split, baseline).s, total) == Overall(trades, total, split)
  {
    hide Summed, Count;
    if |trades| > 0 {
      var rest, t := trades[..|trades| - 1], trades[|trades| - 1];
      SumsOfFold(rest, total, split, baseline);
      if t.split == split {
        SumStep(Fold(rest, split, baseline), t, BaselineHit(baseline, t.id), total, split);
      }
    } else {
      NothingSummed(total);
    }
  }

  lemma NothingSummed(total: Total)
    ensures Summed(NO_STATS, total) == 0.0
  {
  }

  /** Each mean is the sum over the trades it is about, divided by their number. */
  lemma MeansAverage(trades: seq<Trade>, total: Total, split: Split, baseline: Baseline)
    ensures
      var s := StatsOf(trades, split, baseline);
      var n := if total == InvestedTotal || total == BatchesTotal then s.entries else s.resolved;
      Summed(s, total) == if n > 0 then Overall(trades, total, split) / n as real else 0.0
  {
    hide Fold, Overall, Sorted, Sum, TailSize;
    SumsOfFold(trades, total, split, baseline);
    NothingToSum(trades, total, split, baseline);
  }

  lemma {:induction false} NothingToSum(trades: seq<Trade>, total: Total, split: Split, baseline: Baseline)
    ensures
      var s := Fold(trades, split, baseline).s;
      var n := if total == InvestedTotal || total == BatchesTotal then s.entries else s.resolved;
      n >= 0 && (n == 0 ==> Overall(trades, total, split) == 0.0)
  {
    hide Resolved, BaselineHit, Count;
    if |trades| > 0 {
      NothingToSum(trades[..|trades| - 1], total, split, baseline);
      NumbersStep(Fold(trades[..|trades| - 1], split, baseline), trades[|trades| - 1],
                  BaselineHit(baseline, trades[|trades| - 1].id));
    }
  }

  lemma NumbersStep(c: Tally, t: Trade, hit: bool)
    ensures var r := Count(c, t, hit).s;
      && r.entries == c.s.entries + One(t.entryDate.Some?)
      && r.resolved == c.s.resolved + One(t.entryDate.Some? && Resolved(t))
  {
    hide Resolved;
  }

  lemma {:induction false} NetsAre(trades: seq<Trade>, split: Split, baseline: Baseline)
    ensures forall x :: x in Fold(trades, split, baseline).nets <==>
      exists k :: 0 <= k < |trades| && ResolvedIn(trades[k], split) && trades[k].netPct == x
  {
    hide Resolved, BaselineHit;
    if |trades| > 0 {
      var rest, t := trades[..|trades| - 1], trades[|trades| - 1];
      NetsAre(rest, split, baseline);
      var nets := Fold(trades, split, baseline).nets;
      assert nets == Fold(rest, split, baseline).nets + (if ResolvedIn(t, split) then [t.netPct] else []);
      forall x ensures x in nets <==>
        exists k :: 0 <= k < |trades| && ResolvedIn(trades[k], split) && trades[k].netPct == x {
        if k :| 0 <= k < |rest| && ResolvedIn(rest[k], split) && rest[k].netPct == x {
          assert trades[k] == rest[k];
        }
        if k :| 0 <= k < |trades| && ResolvedIn(trades[k], split) && trades[k].netPct == x {
          assert k < |rest| ==> rest[k] == trades[k];
        }
      }
    }
  }

  lemma WorstOf(trades: seq<Trade>, split: Split, baseline: Baseline)
    ensures var s, nets := StatsOf(trades, split, baseline), Fold(trades, split, baseline).nets;
      s.resolved == |nets| && (s.resolved > 0 ==> s.worstNet == Sorted(nets)[0] <= s.p05Net)
  {
    hide Fold, Sorted, Sum, TailSize;
  }

  /**
    The worst net is that of some resolved trade of the split, and no other is lower; the 5% net is no lower either.
  */
  lemma WorstIsLeast(trades: seq<Trade>, split: Split, baseline: Baseline)
    requires StatsOf(trades, split, baseline).resolved > 0
    ensures var s := StatsOf(trades, split, baseline);
      && (forall k :: 0 <= k < |trades| && ResolvedIn(trades[k], split) ==> s.worstNet <= trades[k].netPct)
      && (exists k :: 0 <= k < |trades| && ResolvedIn(trades[k], split) && s.worstNet == trades[k].netPct)
      && s.worstNet <= s.p05Net
  {
    hide Resolved, Fold, Sorted, Sum, TailSize, StatsOf;
    var c := Fold(trades, split, baseline);
    NetsAre(trades, split, baseline);
    WorstOf(trades, split, baseline);
    var nets := Sorted(c.nets);
    forall k | 0 <= k < |trades| && ResolvedIn(trades[k], split) ensures nets[0] <= trades[k].netPct {
      assert trades[k].netPct in c.nets;
      assert trades[k].netPct in multiset(c.nets);
      assert trades[k].netPct in multiset(nets);
      var j :| 0 <= j < |nets| && nets[j] == trades[k].netPct;
    }
    assert nets[0] in multiset(nets);
    assert nets[0] in c.nets;
  }

  // ---------- the low end of the nets ----------

  /** The nets of the resolved trades, in order. */
  function Nets(trades: seq<Trade>, split: Split): seq<real> {
    if trades == [] then []
    else
      var t := trades[|trades| - 1];
      Nets(trades[..|trades| - 1], split) + if ResolvedIn(t, split) then [t.netPct] else []
  }

  lemma NetsStep(c: Tally, t: Trade, hit: bool)
    ensures Count(c, t, hit).nets == c.nets + if t.entryDate.Some? && Resolved(t) then [t.netPct] else []
  {
    hide Resolved;
  }

  lemma {:induction false} NetsOfFold(trades: seq<Trade>, split: Split, baseline: Baseline)
    ensures Fold(trades, split, baseline).nets == Nets(trades, split)
  {
    hide Resolved, BaselineHit, Count;
    if |trades| > 0 {
      var rest, t := trades[..|trades| - 1], trades[|trades| - 1];
      NetsOfFold(rest, split, baseline);
      NetsStep(Fold(rest, split, baseline), t, BaselineHit(baseline, t.id));
    }
  }

  lemma LowEnd(trades: seq<Trade>, split: Split, baseline: Baseline)
    ensures var s, nets := StatsOf(trades, split, baseline), Nets(trades, split);
      s.resolved == |nets|
      && (|nets| > 0 ==>
            && s.p05Net == Sorted(nets)[(0.05 * (|nets| - 1) as real).Floor]
            && s.tailMeanNet == Sum(Sorted(nets)[..TailSize(|nets|)]) / TailSize(|nets|) as real)
  {
    hide Fold, Sorted, Sum, Nets;
    NetsOfFold(trades, split, baseline);
  }

  /** The 5% net is at most `y` exactly when more than a twentieth of the nets, one of them left out, are. */
  lemma FivePercentNet(trades: seq<Trade>, split: Split, baseline: Baseline, y: real)
    requires |Nets(trades, split)| > 0
    ensures var nets := Nets(trades, split);
      StatsOf(trades, split, baseline).p05Net <= y <==> CountAtMost(nets, y) > (0.05 * (|nets| - 1) as real).Floor
  {
    hide StatsOf, Sorted, Nets, CountAtMost;
    var nets := Nets(trades, split);
    LowEnd(trades, split, baseline);
    PlaceOfSorted(nets, (0.05 * (|nets| - 1) as real).Floor, y);
  }

  /** The tail mean is the mean of the lowest nets: a twentieth of them, rounded up. */
  lemma TailIsLowest(trades: seq<Trade>, split: Split, baseline: Baseline) returns (tail: seq<real>, rest: seq<real>)
    requires |Nets(trades, split)| > 0
    ensures |tail| == TailSize(|Nets(trades, split)|)
    ensures multiset(tail) + multiset(rest) == multiset(Nets(trades, split))
    ensures forall j, k :: 0 <= j < |tail| && 0 <= k < |rest| ==> tail[j] <= rest[k]
    ensures StatsOf(trades, split, baseline).tailMeanNet == Sum(tail) / |tail| as real
  {
    hide StatsOf, Sorted, Nets, Sum, TailSize;
    LowEnd(trades, split, baseline);
    var nets := Sorted(Nets(trades, split));
    var n := TailSize(|nets|);
    tail, rest := nets[..n], nets[n..];
    assert nets == tail + rest;
  }
}
