/** The choice among the policies, which reads only training statistics. */
module Search {
  import opened Money
  import opened Market
  import opened Signals
  import opened Simulator
  import opened Stats
  import opened Grid
  import Ledger
  import Simulation

  datatype Trial = Trial(policy: Policy, train: TradeStats, later: TradeStats)

  /** A stop search around one baseline policy. */
  datatype Comparison = Comparison(target: real, batches: int, baseline: Policy, closest: Option<Policy>,
      compromise: Option<Policy>)

  /** The frozen costs, and the order of the trial names. */
  datatype Setting = Setting(s: Strategy, before: (Policy, Policy) -> bool)

  function Horizons(): (r: seq<int>)
    ensures |r| == 5
  {
    [1, 3, 5, 10, 20]
  }

  function Targets(): (r: seq<real>)
    ensures |r| == 2
  {
    [2.5, 3.0]
  }

  function Stops(): (r: seq<real>)
    ensures |r| == 10
    ensures forall k :: 0 <= k < |r| ==> 3.0 <= r[k] <= 20.0
  {
    [3.0, 4.0, 5.0, 6.0, 7.0, 8.0, 10.0, 12.0, 15.0, 20.0]
  }

  ghost predicate ValidData(cfg: Setting, data: Data) {
    && cfg.s.Valid()
    && (forall rule :: rule in data ==> forall k :: 0 <= k < |data[rule]| ==> data[rule][k].Valid())
  }

  function Trades(s: Strategy, policy: Policy, opps: seq<Opportunity>): (r: seq<Trade>)
    requires s.Valid() && policy.Valid() && forall k :: 0 <= k < |opps| ==> opps[k].Valid()
  {
    seq(|opps|, i requires 0 <= i < |opps| => Simulate(s, policy, opps[i]))
  }

  function Evaluate(cfg: Setting, data: Data, policy: Policy, baseline: Baseline): (t: Trial)
    requires ValidData(cfg, data) && policy.Valid()
    ensures t.policy == policy
  {
    var trades := Trades(cfg.s, policy, OppsOf(data, policy.rule));
    Trial(policy, StatsOf(trades, Training, baseline), StatsOf(trades, Later, baseline))
  }

  predicate Enough(s: TradeStats) {
    s.entries >= 30 && s.dates >= 10 && s.stocks >= 10
  }

  predicate Better(cfg: Setting, a: Trial, b: Trial) {
    if Abs(a.train.rate - b.train.rate) > 0.000000000001 then a.train.rate > b.train.rate
    else if Abs(a.train.meanDays - b.train.meanDays) > 0.000000000001 then a.train.meanDays < b.train.meanDays
    else if Abs(a.train.meanNet - b.train.meanNet) > 0.000000000001 then a.train.meanNet > b.train.meanNet
    else if a.train.entries != b.train.entries then a.train.entries > b.train.entries
    else cfg.before(a.policy, b.policy)
  }

  // ---------- the first stage: a winner without a stop for each target and number of batches ----------

  type Winners = map<(real, int), Trial>

  ghost predicate AllValid(w: Winners) {
    forall key :: key in w ==> w[key].policy.Valid()
  }

  /** The policies in the order of the nested loops over rules, batches, horizons and targets. */
  function PolicyAt(k: nat): (p: Policy)
    requires k < 500
    ensures p.Valid()
  {
    Policy(SearchRules()[k / 50], 1 + k / 10 % 5, Horizons()[k / 2 % 5], Targets()[k % 2], 0.0)
  }

  function Admit(cfg: Setting, winners: Winners, t: Trial): (w: Winners)
    ensures t.policy.Valid() && AllValid(winners) ==> AllValid(w)
  {
    var key := (t.policy.target, t.policy.batches);
    if Enough(t.train) && (key !in winners || Better(cfg, t, winners[key])) then winners[key := t] else winners
  }

  function WinnersTo(cfg: Setting, data: Data, n: nat): (w: Winners)
    requires ValidData(cfg, data) && n <= 500
    ensures AllValid(w)
  {
    if n == 0 then map[] else
      Admit(cfg, WinnersTo(cfg, data, n - 1), Evaluate(cfg, data, PolicyAt(n - 1), map[]))
  }

  // ---------- the second stage: stops around each winner ----------

  function BaselineOf(trades: seq<Trade>): Baseline {
    if trades == [] then map[] else
      var last := trades[|trades| - 1];
      BaselineOf(trades[..|trades| - 1])[last.id := last]
  }

  function WithStop(policy: Policy, k: nat): (p: Policy)
    requires k < |Stops()| && policy.Valid()
    ensures p.Valid()
  {
    policy.(stop := Stops()[k])
  }

  /** The comparison after the first `n` stops, and the training rate of the closest one. */
  function CompareTo(cfg: Setting, data: Data, base: Trial, n: nat): (r: (Comparison, real))
    requires ValidData(cfg, data) && base.policy.Valid() && n <= |Stops()|
  {
    if n == 0 then (Comparison(base.policy.target, base.policy.batches, base.policy, None, None), -1.0) else
      var (c, closestRate) := CompareTo(cfg, data, base, n - 1);
      var baseline := BaselineOf(Trades(cfg.s, base.policy, OppsOf(data, base.policy.rule)));
      Weigh(base, c, closestRate, Evaluate(cfg, data, WithStop(base.policy, n - 1), baseline))
  }

  function Weigh(base: Trial, c: Comparison, closestRate: real, t: Trial): (Comparison, real) {
    var near := c.compromise.None? && base.train.rate - t.train.rate <= 0.02 + 0.000000000001
      && t.train.retention >= 0.95 - 0.000000000001;
    var c1 := if near then c.(compromise := Some(t.policy)) else c;
    if t.train.rate > closestRate + 0.000000000001 then (c1.(closest := Some(t.policy)), t.train.rate)
      else (c1, closestRate)
  }

  /** What the second stage has collected: a comparison for each winner, and the best winner for each target. */
  datatype Collected = Collected(byBatches: seq<Comparison>, best: map<real, Trial>, comparisons: map<Policy,
      Comparison>)

  function KeyAt(k: nat): (real, int)
    requires k < 10
  {
    (Targets()[k / 5], 1 + k % 5)
  }

  function CollectTo(cfg: Setting, data: Data, winners: Winners, n: nat): Collected
    requires ValidData(cfg, data) && n <= 10 && AllValid(winners)
  {
    if n == 0 then Collected([], map[], map[]) else
      var c := CollectTo(cfg, data, winners, n - 1);
      var key := KeyAt(n - 1);
      if key !in winners then c else
        var base := winners[key];
        var comparison := CompareTo(cfg, data, base, |Stops()|).0;
        Collected(c.byBatches + [comparison],
                  if key.0 !in c.best || Better(cfg, base, c.best[key.0]) then c.best[key.0 := base] else c.best,
                  c.comparisons[base.policy := comparison])
  }

  /** The comparisons of the best winner of each target. */
  function BestTo(c: Collected, n: nat): seq<Comparison>
    requires n <= |Targets()|
  {
    if n == 0 then [] else
      var rest := BestTo(c, n - 1);
      var target := Targets()[n - 1];
      if target in c.best && c.best[target].policy in c.comparisons then rest + [c.comparisons[c.best[target].policy]]
        else rest
  }

  datatype Report = Report(byBatches: seq<Comparison>, best: seq<Comparison>)

  function Choice(cfg: Setting, data: Data): Report
    requires ValidData(cfg, data)
  {
    var c := CollectTo(cfg, data, WinnersTo(cfg, data, 500), 10);
    Report(c.byBatches, BestTo(c, |Targets()|))
  }

  // ---------- only training opportunities matter ----------

  ghost predicate SameTraining(data: Data, data': Data) {
    forall rule :: TrainingOnly(OppsOf(data, rule)) == TrainingOnly(OppsOf(data', rule))
  }

  /** An opportunity's name carries its signal date, and the date decides its split. */
  ghost predicate Dated(o: Options, opps: seq<Opportunity>) {
    forall k :: 0 <= k < |opps| ==> opps[k].split == SplitOf(o, opps[k].id.date)
  }

  ghost predicate SameChoice(t: Trial, t': Trial) {
    t.policy == t'.policy && t.train == t'.train
  }

  lemma {:induction false} TradesOfTraining(s: Strategy, policy: Policy, opps: seq<Opportunity>)
    requires s.Valid() && policy.Valid() && forall k :: 0 <= k < |opps| ==> opps[k].Valid()
    ensures forall k :: 0 <= k < |TrainingOnly(opps)| ==> TrainingOnly(opps)[k].Valid()
    ensures OfSplit(Trades(s, policy, opps), Training) == Trades(s, policy, TrainingOnly(opps))
  {
    hide Simulate;
    TrainingMembers(opps);
    if opps != [] {
      var rest, last := opps[..|opps| - 1], opps[|opps| - 1];
      TradesOfTraining(s, policy, rest);
      TrainingConcat(rest, [last]);
      assert opps == rest + [last];
      assert Trades(s, policy, opps)[..|opps| - 1] == Trades(s, policy, rest);
      Ledger.LedgerConserves(s, policy, last);
      assert TrainingOnly([last]) == if last.split == Training then [last] else [];
      assert Trades(s, policy, TrainingOnly(opps))
          == Trades(s, policy, TrainingOnly(rest)) + Trades(s, policy, TrainingOnly([last]));
    }
  }

  /** Whether a training trade was hit in the baseline depends on the training trades alone. */
  lemma {:induction false} BaselineOfTraining(o: Options, trades: seq<Trade>, id: TradeId)
    requires forall k :: 0 <= k < |trades| ==> trades[k].split == SplitOf(o, trades[k].id.date)
    requires SplitOf(o, id.date) == Training
    ensures BaselineHit(BaselineOf(trades), id) == BaselineHit(BaselineOf(OfSplit(trades, Training)), id)
  {
    if trades != [] {
      var rest, last := trades[..|trades| - 1], trades[|trades| - 1];
      BaselineOfTraining(o, rest, id);
      if last.split == Training {
        assert (OfSplit(rest, Training) + [last])[..|OfSplit(rest, Training)|] == OfSplit(rest, Training);
      }
    }
  }

  lemma TradesDated(s: Strategy, policy: Policy, o: Options, opps: seq<Opportunity>)
    requires s.Valid() && policy.Valid() && Dated(o, opps) && forall k :: 0 <= k < |opps| ==> opps[k].Valid()
    ensures forall k :: 0 <= k < |opps| ==>
              var t := Trades(s, policy, opps)[k];
              t.id == opps[k].id && t.split == opps[k].split
  {
    forall k | 0 <= k < |opps|
      ensures Trades(s, policy, opps)[k].id == opps[k].id && Trades(s, policy, opps)[k].split == opps[k].split
    {
      Ledger.LedgerConserves(s, policy, opps[k]);
    }
  }

  ghost predicate Comparable(cfg: Setting, o: Options, data: Data, data': Data) {
    && ValidData(cfg, data) && ValidData(cfg, data') && SameTraining(data, data')
    && (forall rule :: Dated(o, OppsOf(data, rule)) && Dated(o, OppsOf(data', rule)))
  }

  lemma TrainingTradesAgree(cfg: Setting, o: Options, data: Data, data': Data, policy: Policy)
    requires Comparable(cfg, o, data, data') && policy.Valid()
    ensures OfSplit(Trades(cfg.s, policy, OppsOf(data, policy.rule)), Training)
         == OfSplit(Trades(cfg.s, policy, OppsOf(data', policy.rule)), Training)
  {
    TradesOfTraining(cfg.s, policy, OppsOf(data, policy.rule));
    TradesOfTraining(cfg.s, policy, OppsOf(data', policy.rule));
  }

  lemma {:induction false} OfSplitMembers(trades: seq<Trade>, split: Split)
    ensures forall t :: t in OfSplit(trades, split) ==> t in trades && t.split == split
  {
    if trades != [] {
      OfSplitMembers(trades[..|trades| - 1], split);
    }
  }

  lemma BaselinesAgree(cfg: Setting, o: Options, data: Data, data': Data, policy: Policy, id: TradeId)
    requires Comparable(cfg, o, data, data') && policy.Valid() && SplitOf(o, id.date) == Training
    ensures BaselineHit(BaselineOf(Trades(cfg.s, policy, OppsOf(data, policy.rule))), id)
         == BaselineHit(BaselineOf(Trades(cfg.s, policy, OppsOf(data', policy.rule))), id)
  {
    TrainingTradesAgree(cfg, o, data, data', policy);
    TradesDated(cfg.s, policy, o, OppsOf(data, policy.rule));
    TradesDated(cfg.s, policy, o, OppsOf(data', policy.rule));
    BaselineOfTraining(o, Trades(cfg.s, policy, OppsOf(data, policy.rule)), id);
    BaselineOfTraining(o, Trades(cfg.s, policy, OppsOf(data', policy.rule)), id);
  }

  lemma EvaluationsAgree(cfg: Setting, o: Options, data: Data, data': Data, policy: Policy, ba: Baseline, bb: Baseline)
    requires Comparable(cfg, o, data, data') && policy.Valid()
    requires forall id: TradeId :: SplitOf(o, id.date) == Training ==> BaselineHit(ba, id) == BaselineHit(bb, id)
    ensures SameChoice(Evaluate(cfg, data, policy, ba), Evaluate(cfg, data', policy, bb))
  {
    hide Simulate, StatsOf;
    TrainingTradesAgree(cfg, o, data, data', policy);
    var x, y := Trades(cfg.s, policy, OppsOf(data, policy.rule)), Trades(cfg.s, policy, OppsOf(data', policy.rule));
    TradesDated(cfg.s, policy, o, OppsOf(data, policy.rule));
    OfSplitMembers(x, Training);
    StatsOfOneSplit(x, y, Training, ba, bb);
  }

  ghost predicate SameWinners(w: Winners, w': Winners) {
    && (forall key :: key in w <==> key in w')
    && (forall key :: key in w ==> SameChoice(w[key], w'[key]))
  }

  lemma {:induction false} WinnersAgree(cfg: Setting, o: Options, data: Data, data': Data, n: nat)
    requires Comparable(cfg, o, data, data') && n <= 500
    ensures SameWinners(WinnersTo(cfg, data, n), WinnersTo(cfg, data', n))
  {
    assert ValidData(cfg, data) && ValidData(cfg, data');
    hide Evaluate, Comparable, PolicyAt, Admit, ValidData;
    if n > 0 {
      WinnersAgree(cfg, o, data, data', n - 1);
      EvaluationsAgree(cfg, o, data, data', PolicyAt(n - 1), map[], map[]);
      AdmitAgrees(cfg, WinnersTo(cfg, data, n - 1), WinnersTo(cfg, data', n - 1),
                  Evaluate(cfg, data, PolicyAt(n - 1), map[]), Evaluate(cfg, data', PolicyAt(n - 1), map[]));
    }
  }

  lemma AdmitAgrees(cfg: Setting, w: Winners, w': Winners, t: Trial, t': Trial)
    requires SameWinners(w, w') && SameChoice(t, t')
    ensures SameWinners(Admit(cfg, w, t), Admit(cfg, w', t'))
  {
    hide Abs;
  }

  lemma {:induction false} ComparisonsAgree(cfg: Setting, o: Options, data: Data, data': Data, base: Trial,
      base': Trial, n: nat)
    requires Comparable(cfg, o, data, data') && SameChoice(base, base') && base.policy.Valid() && n <= |Stops()|
    ensures CompareTo(cfg, data, base, n) == CompareTo(cfg, data', base', n)
  {
    hide Evaluate, BaselineHit, CompareTo, Comparable, Trades, BaselineOf;
    assert ValidData(cfg, data) && ValidData(cfg, data') by { BothValid(cfg, o, data, data'); }
    if n == 0 {
      NothingCompared(cfg, data, base);
      NothingCompared(cfg, data', base');
    } else {
      CompareStep(cfg, data, base, n - 1);
      CompareStep(cfg, data', base', n - 1);
      ComparisonsAgree(cfg, o, data, data', base, base', n - 1);
      var ba := BaselineOf(Trades(cfg.s, base.policy, OppsOf(data, base.policy.rule)));
      var bb := BaselineOf(Trades(cfg.s, base.policy, OppsOf(data', base.policy.rule)));
      forall id: TradeId | SplitOf(o, id.date) == Training ensures BaselineHit(ba, id) == BaselineHit(bb, id) {
        BaselinesAgree(cfg, o, data, data', base.policy, id);
      }
      EvaluationsAgree(cfg, o, data, data', WithStop(base.policy, n - 1), ba, bb);
    }
  }

  lemma BothValid(cfg: Setting, o: Options, data: Data, data': Data)
    requires Comparable(cfg, o, data, data')
    ensures ValidData(cfg, data) && ValidData(cfg, data')
  {
  }

  ghost predicate SameCollected(c: Collected, c': Collected) {
    && c.byBatches == c'.byBatches && c.comparisons == c'.comparisons
    && (forall t :: t in c.best <==> t in c'.best)
    && (forall t :: t in c.best ==> SameChoice(c.best[t], c'.best[t]))
  }

  lemma {:induction false} CollectedAgree(cfg: Setting, o: Options, data: Data, data': Data, w: Winners, w': Winners,
      n: nat)
    requires Comparable(cfg, o, data, data') && SameWinners(w, w') && n <= 10
    requires AllValid(w)
    ensures SameCollected(CollectTo(cfg, data, w, n), CollectTo(cfg, data', w', n))
  {
    hide CompareTo, Comparable, CollectTo, ValidData, Abs;
    BothValid(cfg, o, data, data');
    if n == 0 {
      NothingCollected(cfg, data, w);
      NothingCollected(cfg, data', w');
    } else {
      CollectStep(cfg, data, w, n - 1);
      CollectStep(cfg, data', w', n - 1);
      CollectedAgree(cfg, o, data, data', w, w', n - 1);
      if KeyAt(n - 1) in w {
        ComparisonsAgree(cfg, o, data, data', w[KeyAt(n - 1)], w'[KeyAt(n - 1)], |Stops()|);
      }
    }
  }

  lemma {:induction false} BestAgree(c: Collected, c': Collected, n: nat)
    requires SameCollected(c, c') && n <= |Targets()|
    ensures BestTo(c, n) == BestTo(c', n)
  {
    if n > 0 {
      BestAgree(c, c', n - 1);
    }
  }

  /** Data that agree on the training opportunities lead to the same choice of policies. */
  lemma ChoiceReadsTrainingOnly(cfg: Setting, o: Options, data: Data, data': Data)
    requires Comparable(cfg, o, data, data')
    ensures Choice(cfg, data) == Choice(cfg, data')
  {
    hide WinnersTo, CollectTo, BestTo;
    WinnersAgree(cfg, o, data, data', 500);
    var w, w' := WinnersTo(cfg, data, 500), WinnersTo(cfg, data', 500);
    CollectedAgree(cfg, o, data, data', w, w', 10);
    BestAgree(CollectTo(cfg, data, w, 10), CollectTo(cfg, data', w', 10), |Targets()|);
  }

  // ---------- no look-ahead ----------

  lemma WindowsDated(ind: Indicators, snap: Snapshot, o: Options, rule: Rule, h: History)
    requires ValidSnapshot(snap) && Paired(ind, snap, o, h) && h in snap.adjusted
    ensures Dated(o, WindowsOf(ind, snap, o, h, rule))
  {
    hide ValidSnapshot, Paired, Windows;
    if !h.special {
      var x := Series(ind, snap, o, h, rule);
      if WARMUP - 1 < |x.0| {
        WindowsInOrder(o, snap.next, h, x.0, x.1, x.2, WARMUP - 1);
      } else {
        TooShort(o, snap.next, h, x.0, x.1, x.2);
      }
    }
  }

  lemma DatedConcat(o: Options, x: seq<Opportunity>, y: seq<Opportunity>)
    requires Dated(o, x) && Dated(o, y)
    ensures Dated(o, x + y)
  {
  }

  lemma {:induction false} OpportunitiesDated(ind: Indicators, snap: Snapshot, o: Options, rule: Rule, n: nat)
    requires ValidSnapshot(snap) && n <= |snap.adjusted|
    requires forall k :: 0 <= k < n ==> Paired(ind, snap, o, snap.adjusted[k])
    ensures Dated(o, Opportunities(ind, snap, o, rule, n))
  {
    hide ValidSnapshot, Paired, WindowsOf, Dated;
    if n == 0 {
      NoneDated(o);
    } else {
      OpportunitiesDated(ind, snap, o, rule, n - 1);
      WindowsDated(ind, snap, o, rule, snap.adjusted[n - 1]);
      DatedConcat(o, Opportunities(ind, snap, o, rule, n - 1), WindowsOf(ind, snap, o, snap.adjusted[n - 1], rule));
    }
  }

  lemma NoneDated(o: Options)
    ensures Dated(o, [])
  {
  }

  lemma TooShort(o: Options, next: int -> Option<int>, h: History, a: seq<Bar>, b: seq<Bar>, events: seq<bool>)
    requires ValidPair(a, b, events) && |a| <= WARMUP - 1
    ensures Windows(o, next, h, a, b, events, WARMUP - 1) == []
  {
  }

  /**
   * The policies the search selects do not change when any bars dated after the training boundary change,
   * as long as the search still accepts the snapshot.
   */
  lemma NoLookAhead(cfg: Setting, ind: Indicators, snap: Snapshot, snap': Snapshot, o: Options)
    requires ValidSnapshot(snap) && ValidSnapshot(snap') && AgreeThrough(snap, snap', o) && cfg.s == snap.parameters
    requires Accepted(ind, snap, o) && Accepted(ind, snap', o)
    ensures Choice(cfg, DataOf(ind, snap, o)) == Choice(cfg, DataOf(ind, snap', o))
  {
    hide Opportunities, Accepted, AgreeThrough, TrainingOnly, Choice;
    var data, data' := DataOf(ind, snap, o), DataOf(ind, snap', o);
    forall rule: Rule
      ensures TrainingOnly(OppsOf(data, rule)) == TrainingOnly(OppsOf(data', rule))
      ensures Dated(o, OppsOf(data, rule)) && Dated(o, OppsOf(data', rule))
    {
      if rule in SearchRules() {
        AcceptedPairs(ind, snap, o);
        AcceptedPairs(ind, snap', o);
        SameLength(snap, snap', o);
        TrainingOpportunitiesAgree(ind, snap, snap', o, rule, |snap.adjusted|);
        OpportunitiesDated(ind, snap, o, rule, |snap.adjusted|);
        OpportunitiesDated(ind, snap', o, rule, |snap'.adjusted|);
      }
    }
    ChoiceReadsTrainingOnly(cfg, o, data, data');
  }

  lemma AcceptedPairs(ind: Indicators, snap: Snapshot, o: Options)
    requires Accepted(ind, snap, o)
    ensures forall k :: 0 <= k < |snap.adjusted| ==> Paired(ind, snap, o, snap.adjusted[k])
  {
  }

  lemma SameLength(snap: Snapshot, snap': Snapshot, o: Options)
    requires AgreeThrough(snap, snap', o)
    ensures |snap.adjusted| == |snap'.adjusted|
  {
  }

  // ---------- the loops ----------

  method EvaluateGridPolicy(cfg: Setting, data: Data, policy: Policy, baseline: Baseline)
      returns (t: Trial, trades: seq<Trade>)
    requires ValidData(cfg, data) && policy.Valid()
    ensures t == Evaluate(cfg, data, policy, baseline)
    ensures trades == Trades(cfg.s, policy, OppsOf(data, policy.rule))
  {
    hide Simulate, StatsOf;
    var opps := OppsOf(data, policy.rule);
    trades := [];
    for i := 0 to |opps|
      invariant trades == Trades(cfg.s, policy, opps)[..i]
    {
      var trade := Simulation.SimulateTrade(cfg.s, policy, opps[i]);
      trades := trades + [trade];
    }
    assert Trades(cfg.s, policy, opps)[..|opps|] == Trades(cfg.s, policy, opps);
    var train := ComputeStats(trades, Training, baseline);
    var later := ComputeStats(trades, Later, baseline);
    t := Trial(policy, train, later);
  }

  method SelectWinners(cfg: Setting, data: Data) returns (winners: Winners)
    requires ValidData(cfg, data)
    ensures winners == WinnersTo(cfg, data, 500)
  {
    hide Evaluate, WinnersTo, PolicyAt;
    winners := map[];
    NoWinnersYet(cfg, data);
    ghost var n := 0;
    for r := 0 to |SearchRules()|
      invariant n == 50 * r && winners == WinnersTo(cfg, data, n)
    {
      for batches := 1 to 6
        invariant n == 50 * r + 10 * (batches - 1) && winners == WinnersTo(cfg, data, n)
      {
        for d := 0 to |Horizons()|
          invariant n == 50 * r + 10 * (batches - 1) + 2 * d && winners == WinnersTo(cfg, data, n)
        {
          for t := 0 to |Targets()|
            invariant n == 50 * r + 10 * (batches - 1) + 2 * d + t && winners == WinnersTo(cfg, data, n)
          {
            var policy := Policy(SearchRules()[r], batches, Horizons()[d], Targets()[t], 0.0);
            PolicyInOrder(r, batches, d, t);
            var trial, _ := EvaluateGridPolicy(cfg, data, policy, map[]);
            var key := (trial.policy.target, trial.policy.batches);
            WinnersStep(cfg, data, n);
            if Enough(trial.train) && (key !in winners || Better(cfg, trial, winners[key])) {
              winners := winners[key := trial];
            }
            n := n + 1;
          }
        }
      }
    }
  }

  lemma NoWinnersYet(cfg: Setting, data: Data)
    requires ValidData(cfg, data)
    ensures WinnersTo(cfg, data, 0) == map[]
  {
  }

  lemma WinnersStep(cfg: Setting, data: Data, n: nat)
    requires ValidData(cfg, data) && n < 500
    ensures WinnersTo(cfg, data, n + 1) == Admit(cfg, WinnersTo(cfg, data, n), Evaluate(cfg, data, PolicyAt(n), map[]))
  {
  }

  lemma PolicyInOrder(r: nat, batches: int, d: nat, t: nat)
    requires r < 10 && 1 <= batches <= 5 && d < 5 && t < 2
    ensures PolicyAt(50 * r + 10 * (batches - 1) + 2 * d + t)
      == Policy(SearchRules()[r], batches, Horizons()[d], Targets()[t], 0.0)
  {
    var k := 50 * r + 10 * (batches - 1) + 2 * d + t;
    assert k / 50 == r && k / 10 == 5 * r + batches - 1 && k / 2 == 25 * r + 5 * (batches - 1) + d;
  }

  method CompareStops(cfg: Setting, data: Data, base: Trial) returns (c: Comparison)
    requires ValidData(cfg, data) && base.policy.Valid()
    ensures c == CompareTo(cfg, data, base, |Stops()|).0
  {
    hide Evaluate, CompareTo;
    var _, trades := EvaluateGridPolicy(cfg, data, base.policy, map[]);
    var baseline: Baseline := map[];
    for i := 0 to |trades|
      invariant baseline == BaselineOf(trades[..i])
    {
      assert trades[..i + 1][..i] == trades[..i];
      baseline := baseline[trades[i].id := trades[i]];
    }
    assert trades[..|trades|] == trades;
    c := Comparison(base.policy.target, base.policy.batches, base.policy, None, None);
    var closestRate := -1.0;
    NothingCompared(cfg, data, base);
    for k := 0 to |Stops()|
      invariant (c, closestRate) == CompareTo(cfg, data, base, k)
    {
      CompareStep(cfg, data, base, k);
      var policy := base.policy.(stop := Stops()[k]);
      var t, _ := EvaluateGridPolicy(cfg, data, policy, baseline);
      if c.compromise.None? && base.train.rate - t.train.rate <= 0.02 + 0.000000000001
        && t.train.retention >= 0.95 - 0.000000000001 {
        c := c.(compromise := Some(t.policy));
      }
      if t.train.rate > closestRate + 0.000000000001 {
        c, closestRate := c.(closest := Some(t.policy)), t.train.rate;
      }
    }
  }

  lemma NothingCompared(cfg: Setting, data: Data, base: Trial)
    requires ValidData(cfg, data) && base.policy.Valid()
    ensures CompareTo(cfg, data, base, 0)
      == (Comparison(base.policy.target, base.policy.batches, base.policy, None, None), -1.0)
  {
  }

  lemma CompareStep(cfg: Setting, data: Data, base: Trial, k: nat)
    requires ValidData(cfg, data) && base.policy.Valid() && k < |Stops()|
    ensures var (c, rate) := CompareTo(cfg, data, base, k);
            var baseline := BaselineOf(Trades(cfg.s, base.policy, OppsOf(data, base.policy.rule)));
            CompareTo(cfg, data, base, k + 1)
              == Weigh(base, c, rate, Evaluate(cfg, data, WithStop(base.policy, k), baseline))
  {
    hide Weigh, Evaluate, Trades, BaselineOf;
  }

  method Optimize(cfg: Setting, ind: Indicators, snap: Snapshot, o: Options) returns (r: Option<Report>)
    requires ValidSnapshot(snap) && cfg.s == snap.parameters
    ensures r.Some? <==> Accepted(ind, snap, o)
    ensures r.Some? ==> r.value == Choice(cfg, DataOf(ind, snap, o))
  {
    hide WinnersTo, CompareTo, CollectTo, Accepted, Opportunities;
    var prepared := PrepareGrid(ind, snap, o);
    if prepared.None? {
      return None;
    }
    var data := prepared.value;
    var winners := SelectWinners(cfg, data);
    var c := Collected([], map[], map[]);
    NothingCollected(cfg, data, winners);
    ghost var n := 0;
    for i := 0 to |Targets()|
      invariant n == 5 * i && c == CollectTo(cfg, data, winners, n)
    {
      for batches := 1 to 6
        invariant n == 5 * i + batches - 1 && c == CollectTo(cfg, data, winners, n)
      {
        CollectStep(cfg, data, winners, n);
        var target := Targets()[i];
        assert KeyAt(n) == (target, batches);
        if (target, batches) in winners {
          var base := winners[(target, batches)];
          var comparison := CompareStops(cfg, data, base);
          var best := c.best;
          if target !in best || Better(cfg, base, best[target]) {
            best := best[target := base];
          }
          c := Collected(c.byBatches + [comparison], best, c.comparisons[base.policy := comparison]);
        }
        n := n + 1;
      }
    }
    var best := [];
    for i := 0 to |Targets()|
      invariant best == BestTo(c, i)
    {
      var target := Targets()[i];
      if target in c.best && c.best[target].policy in c.comparisons {
        best := best + [c.comparisons[c.best[target].policy]];
      }
    }
    return Some(Report(c.byBatches, best));
  }

  lemma NothingCollected(cfg: Setting, data: Data, winners: Winners)
    requires ValidData(cfg, data) && AllValid(winners)
    ensures CollectTo(cfg, data, winners, 0) == Collected([], map[], map[])
  {
  }

  lemma CollectStep(cfg: Setting, data: Data, winners: Winners, n: nat)
    requires ValidData(cfg, data) && n < 10 && AllValid(winners)
    ensures var c, key := CollectTo(cfg, data, winners, n), KeyAt(n);
            CollectTo(cfg, data, winners, n + 1) ==
              if key !in winners then c else
                var comparison := CompareTo(cfg, data, winners[key], |Stops()|).0;
                Collected(c.byBatches + [comparison],
                          if key.0 !in c.best || Better(cfg, winners[key], c.best[key.0])
                            then c.best[key.0 := winners[key]] else c.best,
                          c.comparisons[winners[key].policy := comparison])
  {
  }
}
