/** How fast targets are reached (internal/bottomstudy/speed.go), and the result rows checked by internal/experiment. */
module Speed {
  import opened Money
  import opened Market
  import opened Trading
  import opened Simulator
  import opened Ledger
  import opened Stats

  const DEADLINE: nat := 20

  // ---------- The curve ----------

  /** A trade of the split that was entered, or that might have been. */
  predicate Counted(t: Trade, split: Split) {
    t.split == split && !(t.entryDate.None? && t.status == EntrySkipped)
  }

  /** The sellable days to the target; a failure or an unknown waits one day more than the deadline. */
  function Wait(t: Trade): (r: nat)
    ensures 1 <= r <= DEADLINE + 1
  {
    if t.entryDate.Some? && Resolved(t) && t.targetHit && 1 <= t.targetDay <= DEADLINE then t.targetDay
      else DEADLINE + 1
  }

  function Waits(trades: seq<Trade>, split: Split): seq<nat> {
    if |trades| == 0 then []
    else
      var t := trades[|trades| - 1];
      Waits(trades[..|trades| - 1], split) + (if Counted(t, split) then [Wait(t)] else [])
  }

  /** How many wait no longer than `d` days. */
  function Within(waits: seq<nat>, d: int): (r: nat)
    ensures r <= |waits|
  {
    if |waits| == 0 then 0 else Within(waits[..|waits| - 1], d) + if waits[|waits| - 1] <= d then 1 else 0
  }

  /** The days waited by those that wait no longer than `d`. */
  function DaysWithin(waits: seq<nat>, d: int): (r: nat) {
    if |waits| == 0 then 0
    else DaysWithin(waits[..|waits| - 1], d) + if waits[|waits| - 1] <= d then waits[|waits| - 1] else 0
  }

  datatype Point = Point(day: nat, targets: nat, rate: real)

  datatype SpeedStats = SpeedStats(stats: TradeStats, curve: seq<Point>, day50: nat, day80: nat, penalizedDays: real,
      successDays: real)

  function PointAt(waits: seq<nat>, samples: int, k: nat): Point {
    Point(k + 1, Within(waits, k + 1), if samples > 0 then Within(waits, k + 1) as real / samples as real else 0.0)
  }

  /** The first of the first `n` days by which `part` of `whole` of the samples are on target; zero for none. */
  function FirstDay(waits: seq<nat>, samples: int, part: int, whole: int, n: nat): (r: nat)
    ensures r <= n
  {
    if n == 0 then 0
    else
      var before := FirstDay(waits, samples, part, whole, n - 1);
      if before > 0 then before else if Within(waits, n) * whole >= samples * part then n else 0
  }

  function SpeedOf(trades: seq<Trade>, split: Split): SpeedStats {
    var s := StatsOf(trades, split, map[]);
    var waits := Waits(trades, split);
    SpeedStats(
      s, seq(DEADLINE, k requires 0 <= k < DEADLINE => PointAt(waits, s.samples, k)),
      if s.samples > 0 then FirstDay(waits, s.samples, 1, 2, DEADLINE) else 0,
      if s.samples > 0 then FirstDay(waits, s.samples, 4, 5, DEADLINE) else 0,
      if s.samples > 0 then DaysWithin(waits, DEADLINE + 1) as real / s.samples as real else 0.0,
      if s.targets > 0 then DaysWithin(waits, DEADLINE) as real / s.targets as real
        else DaysWithin(waits, DEADLINE) as real)
  }

  /** The points a wait raises, in place. */
  method RaisePoints(counts: array<nat>, wait: nat)
    requires counts.Length == DEADLINE && 1 <= wait <= DEADLINE
    modifies counts
    ensures forall k :: 0 <= k < DEADLINE ==> counts[k] == old(counts[k]) + if wait <= k + 1 then 1 else 0
  {
    var i := wait - 1;
    while i < DEADLINE
      invariant wait - 1 <= i <= DEADLINE
      invariant forall k :: 0 <= k < DEADLINE ==> counts[k] == old(counts[k]) + if wait <= k + 1 && k < i then 1 else 0
    {
      counts[i] := counts[i] + 1;
      i := i + 1;
    }
  }

  lemma OneMoreWait(waits: seq<nat>, w: nat, d: int)
    ensures Within(waits + [w], d) == Within(waits, d) + if w <= d then 1 else 0
    ensures DaysWithin(waits + [w], d) == DaysWithin(waits, d) + if w <= d then w else 0
  {
    assert (waits + [w])[..|waits|] == waits;
  }

  method SummarizeSpeed(trades: seq<Trade>, split: Split) returns (r: SpeedStats)
    ensures r == SpeedOf(trades, split)
  {
    hide StatsOf, Resolved, Within, DaysWithin;
    var s := ComputeStats(trades, split, map[]);
    var counts := new nat[DEADLINE](_ => 0);
    var penalized, success := 0, 0;
    NoWaits();
    for i := 0 to |trades|
      invariant forall k :: 0 <= k < DEADLINE ==> counts[k] == Within(Waits(trades[..i], split), k + 1)
      invariant penalized == DaysWithin(Waits(trades[..i], split), DEADLINE + 1)
      invariant success == DaysWithin(Waits(trades[..i], split), DEADLINE)
    {
      var t := trades[i];
      ghost var waits := Waits(trades[..i], split);
      assert trades[..i + 1][..i] == trades[..i];
      if t.split != split || (t.entryDate.None? && t.status == EntrySkipped) {
        assert Waits(trades[..i + 1], split) == waits;
        continue;
      }
      var wait := DEADLINE + 1;
      if t.entryDate.Some? && Resolved(t) && t.targetHit && t.targetDay >= 1 && t.targetDay <= DEADLINE {
        wait := t.targetDay;
        success := success + wait;
        RaisePoints(counts, wait);
      }
      penalized := penalized + wait;
      assert Waits(trades[..i + 1], split) == waits + [wait];
      forall d ensures Within(waits + [wait], d) == Within(waits, d) + (if wait <= d then 1 else 0) {
        OneMoreWait(waits, wait, d);
      }
      OneMoreWait(waits, wait, DEADLINE);
      OneMoreWait(waits, wait, DEADLINE + 1);
    }
    assert trades[..|trades|] == trades;
    var curve, day50, day80 := ReadCurve(counts[..], Waits(trades, split), s.samples);
    r := SpeedStats(s, curve, day50, day80,
      if s.samples > 0 then penalized as real / s.samples as real else 0.0,
      if s.targets > 0 then success as real / s.targets as real else success as real);
  }

  lemma NoWaits()
    ensures forall d :: Within([], d) == 0 && DaysWithin([], d) == 0
  {
  }

  /** The rates, and the first days with half and with four fifths of the samples on target. */
  method ReadCurve(counts: seq<nat>, ghost waits: seq<nat>, samples: int)
      returns (curve: seq<Point>, day50: nat, day80: nat)
    requires |counts| == DEADLINE && forall k :: 0 <= k < DEADLINE ==> counts[k] == Within(waits, k + 1)
    ensures curve == seq(DEADLINE, k requires 0 <= k < DEADLINE => PointAt(waits, samples, k))
    ensures day50 == if samples > 0 then FirstDay(waits, samples, 1, 2, DEADLINE) else 0
    ensures day80 == if samples > 0 then FirstDay(waits, samples, 4, 5, DEADLINE) else 0
  {
    hide Within;
    curve, day50, day80 := [], 0, 0;
    for k := 0 to DEADLINE
      invariant |curve| == k && forall j :: 0 <= j < k ==> curve[j] == PointAt(waits, samples, j)
      invariant day50 == if samples > 0 then FirstDay(waits, samples, 1, 2, k) else 0
      invariant day80 == if samples > 0 then FirstDay(waits, samples, 4, 5, k) else 0
    {
      var p := Point(k + 1, counts[k], 0.0);
      if samples > 0 {
        p := p.(rate := p.targets as real / samples as real);
        if day50 == 0 && p.targets * 2 >= samples {
          day50 := p.day;
        }
        if day80 == 0 && p.targets * 5 >= samples * 4 {
          day80 := p.day;
        }
      }
      curve := curve + [p];
    }
  }

  // ---------- What the curve says ----------

  /** A hit is reported with the sellable day it came on, inside the deadline. */
  predicate Timely(t: Trade) {
    Resolved(t) && t.targetHit ==> t.entryDate.Some? && 1 <= t.targetDay <= DEADLINE
  }

  ghost predicate AllTimely(trades: seq<Trade>) {
    forall k :: 0 <= k < |trades| ==> Timely(trades[k])
  }

  /** Every trade the simulator returns is timely when the policy's horizon is the deadline. */
  lemma SimulatedIsTimely(s: Strategy, policy: Policy, o: Opportunity)
    requires Simulator.Valid(s, policy, o) && policy.horizon <= DEADLINE
    ensures Timely(Simulate(s, policy, o))
  {
    hide Balanced, Simulate;
    LedgerConserves(s, policy, o);
  }

  lemma {:induction false} WithinGrows(waits: seq<nat>, d: int, e: int)
    requires d <= e
    ensures Within(waits, d) <= Within(waits, e)
  {
    if |waits| > 0 {
      WithinGrows(waits[..|waits| - 1], d, e);
    }
  }

  /** What one more trade adds to the waits and to the counters. */
  lemma WaitsStep(trades: seq<Trade>, split: Split)
    requires |trades| > 0
    ensures
      var rest, t := trades[..|trades| - 1], trades[|trades| - 1];
      var c, c' := Fold(rest, split, map[]).s, Fold(trades, split, map[]).s;
      && Waits(trades, split) == Waits(rest, split) + (if Counted(t, split) then [Wait(t)] else [])
      && c'.entries + c'.unknownEntries == c.entries + c.unknownEntries + One(Counted(t, split))
      && c'.targets == c.targets + One(t.split == split && t.entryDate.Some? && Resolved(t) && t.targetHit)
  {
    hide Wait, Resolved;
    CountedOnce(Fold(trades[..|trades| - 1], split, map[]), trades[|trades| - 1]);
  }

  /** One wait for every sample, and with timely trades one within the deadline for every target. */
  lemma {:induction false} WaitsAreSamples(trades: seq<Trade>, split: Split)
    ensures var c := Fold(trades, split, map[]);
      && |Waits(trades, split)| == c.s.entries + c.s.unknownEntries
      && Within(Waits(trades, split), DEADLINE) <= c.s.targets
      && (AllTimely(trades) ==> Within(Waits(trades, split), DEADLINE) == c.s.targets)
  {
    if |trades| == 0 {
      assert trades == [];
      NoTrades(split);
    } else {
      hide Resolved, Fold, Waits, Within;
      var rest, t := trades[..|trades| - 1], trades[|trades| - 1];
      WaitsAreSamples(rest, split);
      WaitsStep(trades, split);
      assert AllTimely(trades) ==> AllTimely(rest) && Timely(t);
      OneMoreWait(Waits(rest, split), Wait(t), DEADLINE);
      assert Waits(rest, split) + [] == Waits(rest, split);
    }
  }

  lemma NoTrades(split: Split)
    ensures Fold([], split, map[]).s == NO_STATS && Waits([], split) == [] && Within([], DEADLINE) == 0
  {
  }

  lemma CountedOnce(c: Tally, t: Trade)
    ensures var r := Count(c, t, false).s;
      && r.entries + r.unknownEntries == c.s.entries + c.s.unknownEntries + One(Counted(t, t.split))
      && r.targets == c.s.targets + One(t.entryDate.Some? && Resolved(t) && t.targetHit)
  {
    hide Resolved;
  }

  lemma CurveIs(trades: seq<Trade>, split: Split)
    ensures var r, waits := SpeedOf(trades, split), Waits(trades, split);
      && |r.curve| == DEADLINE && r.stats == StatsOf(trades, split, map[])
      && forall k :: 0 <= k < DEADLINE ==> r.curve[k].day == k + 1 && r.curve[k].targets == Within(waits, k + 1)
  {
    hide StatsOf, Waits, Within, FirstDay, DaysWithin;
  }

  lemma SamplesOfStats(trades: seq<Trade>, split: Split)
    ensures var s, c := StatsOf(trades, split, map[]), Fold(trades, split, map[]).s;
      s.samples == c.entries + c.unknownEntries && s.targets == c.targets <= s.samples
  {
    hide Fold, TailSize, Stats.Sum;
  }

  /** The reported day is the first on which the share is reached; zero says that no day does. */
  lemma {:induction false} FirstDayIsFirst(waits: seq<nat>, samples: int, part: int, whole: int, n: nat)
    ensures var d := FirstDay(waits, samples, part, whole, n);
      && (d > 0 ==> Within(waits, d) * whole >= samples * part)
      && (forall e :: 1 <= e <= n && (d == 0 || e < d) ==> Within(waits, e) * whole < samples * part)
  {
    hide Within;
    if n > 0 {
      FirstDayIsFirst(waits, samples, part, whole, n - 1);
    }
  }

  /** The curve never falls, and by the deadline it has counted every target and no more. */
  lemma CurveIsCumulative(trades: seq<Trade>, split: Split)
    ensures var r := SpeedOf(trades, split);
      && |r.curve| == DEADLINE
      && (forall j, k :: 0 <= j <= k < DEADLINE ==>
           r.curve[j].targets <= r.curve[k].targets && r.curve[j].day <= r.curve[k].day)
      && r.curve[DEADLINE - 1].targets <= r.stats.targets <= r.stats.samples == |Waits(trades, split)|
      && (AllTimely(trades) ==> r.curve[DEADLINE - 1].targets == r.stats.targets)
  {
    hide Within, Waits, Fold, SpeedOf, StatsOf;
    WaitsAreSamples(trades, split);
    SamplesOfStats(trades, split);
    CurveIs(trades, split);
    var waits := Waits(trades, split);
    var curve := SpeedOf(trades, split).curve;
    forall j, k | 0 <= j <= k < DEADLINE ensures curve[j].targets <= curve[k].targets && curve[j].day <= curve[k].day {
      WithinGrows(waits, j + 1, k + 1);
    }
  }

  lemma {:induction false} DaysInRange(waits: seq<nat>, d: nat)
    requires forall k :: 0 <= k < |waits| ==> 1 <= waits[k]
    ensures Within(waits, d) <= DaysWithin(waits, d) <= d * Within(waits, d)
  {
    if |waits| > 0 {
      DaysInRange(waits[..|waits| - 1], d);
      assert d * (Within(waits[..|waits| - 1], d) + 1) == d * Within(waits[..|waits| - 1], d) + d;
    }
  }

  lemma {:induction false} WaitsAtLeastOne(trades: seq<Trade>, split: Split)
    ensures forall k :: 0 <= k < |Waits(trades, split)| ==> 1 <= Waits(trades, split)[k]
  {
    if |trades| > 0 {
      WaitsAtLeastOne(trades[..|trades| - 1], split);
    }
  }

  /** The mean of the successful waits lies between one day and the deadline. */
  lemma SuccessInRange(trades: seq<Trade>, split: Split)
    requires AllTimely(trades) && SpeedOf(trades, split).stats.targets > 0
    ensures 1.0 <= SpeedOf(trades, split).successDays <= DEADLINE as real
  {
    hide Within, DaysWithin, Waits, Fold;
    var r := SpeedOf(trades, split);
    WaitsAreSamples(trades, split);
    WaitsAtLeastOne(trades, split);
    DaysInRange(Waits(trades, split), DEADLINE);
    MeanInRange(DaysWithin(Waits(trades, split), DEADLINE), r.stats.targets, DEADLINE);
  }

  lemma Divided(x: real, c: real, n: real)
    requires 0.0 < n
    ensures c * n <= x ==> c <= x / n
    ensures x <= c * n ==> x / n <= c
  {
    var q := x / n;
    assert q * n == x;
    assert (c - q) * n == c * n - x;
    if q < c {
      assert (c - q) * n > 0.0;
    }
    if c < q {
      assert (q - c) * n > 0.0;
    }
  }

  lemma MeanInRange(sum: nat, n: int, d: nat)
    requires 0 < n <= sum <= d * n
    ensures 1.0 <= sum as real / n as real <= d as real
  {
    Divided(sum as real, 1.0, n as real);
    assert (d * n) as real == d as real * n as real;
    Divided(sum as real, d as real, n as real);
  }
}
