/** Which policies the search tries, and how it ranks two of them. */
module Ranking {
  import opened Money
  import opened Market
  import opened Signals
  import opened Simulator
  import opened Stats
  import opened Grid
  import opened Search
  import opened Selection

  // ---------- what is tried ----------

  /** A rule without a stop, one to five batches, one of five horizons and one of two targets. */
  predicate Tried(p: Policy) {
    && 1 <= p.batches <= 5
    && (p.horizon == 1 || p.horizon == 3 || p.horizon == 5 || p.horizon == 10 || p.horizon == 20)
    && (p.target == 2.5 || p.target == 3.0) && p.stop == 0.0
  }

  function RuleAt(m: nat): Rule
    requires m < 10
  {
    match m
    case 0 => Single(RsiDivergence)
    case 1 => Single(MacdDivergence)
    case 2 => Single(RsiPersistence)
    case 3 => Single(MacdContraction)
    case 4 => Single(BollingerReentry)
    case 5 => Any
    case 6 => MacdOrBollinger
    case 7 => RsiOrBollinger
    case 8 => RecentConfluence
    case _ => MacdAndBollinger
  }

  /** The place of a policy in the nested loops over rules, batches, horizons and targets. */
  lemma PolicyHasPlace(p: Policy) returns (k: nat)
    requires Tried(p)
    ensures k < 500 && PolicyAt(k) == p
  {
    var r := RulePlace(p.rule);
    var h := if p.horizon == 1 then 0 else if p.horizon == 3 then 1 else if p.horizon == 5 then 2
      else if p.horizon == 10 then 3 else 4;
    var t := if p.target == 2.5 then 0 else 1;
    k := 50 * r + 10 * (p.batches - 1) + 2 * h + t;
    Place(r, p.batches - 1, h, t);
    assert Horizons()[h] == p.horizon && Targets()[t] == p.target;
    hide SearchRules, Horizons, Targets;
  }

  lemma Place(r: nat, b: nat, h: nat, t: nat)
    requires r < 10 && b < 5 && h < 5 && t < 2
    ensures var k := 50 * r + 10 * b + 2 * h + t;
      k < 500 && k / 50 == r && k / 10 % 5 == b && k / 2 % 5 == h && k % 2 == t
  {
    var k := 50 * r + 10 * b + 2 * h + t;
    assert k / 10 == 5 * r + b;
    assert k / 2 == 25 * r + 5 * b + h;
  }

  lemma RulePlace(rule: Rule) returns (r: nat)
    ensures r < 10 && SearchRules()[r] == rule && RuleAt(r) == rule
  {
    match rule
    case Single(e) =>
      match e {
        case RsiDivergence => r := 0;
        case MacdDivergence => r := 1;
        case RsiPersistence => r := 2;
        case MacdContraction => r := 3;
        case BollingerReentry => r := 4;
      }
    case Any => r := 5;
    case MacdOrBollinger => r := 6;
    case RsiOrBollinger => r := 7;
    case RecentConfluence => r := 8;
    case MacdAndBollinger => r := 9;
  }

  /** The search tries exactly these policies, the rules outermost and the targets innermost. */
  lemma PolicyAtIs(k: nat)
    requires k < 500
    ensures var p := PolicyAt(k);
      && Tried(p) && p.rule == RuleAt(k / 50) && p.batches == 1 + k / 10 % 5
      && (k % 2 == 0 <==> p.target == 2.5)
  {
    var rules := SearchRules();
    var r := k / 50;
    assert 0 <= r < 10;
    assert rules[r] == RuleAt(r);
  }

  /** The stops around a winner are these ten, in this order. */
  lemma StopsAre(k: nat)
    requires k < |Stops()|
    ensures |Stops()| == 10
    ensures Stops()[k] == if k < 6 then 3.0 + k as real else if k == 6 then 10.0 else if k == 7 then 12.0
      else if k == 8 then 15.0 else 20.0
  {
  }

  // ---------- the ranking ----------

  predicate Apart(x: real, y: real) {
    x - y > 0.000000000001 || y - x > 0.000000000001
  }

  /**
   * A trial is better by the first of these that sets the two apart: a higher training rate, fewer days held, a higher
   * mean net return, more entries; and by the order of the names when none does.
   */
  lemma BetterIs(cfg: Setting, a: Trial, b: Trial)
    ensures var x, y := a.train, b.train;
      && (Apart(x.rate, y.rate) ==> (Better(cfg, a, b) <==> x.rate > y.rate))
      && (!Apart(x.rate, y.rate) && Apart(x.meanDays, y.meanDays) ==> (Better(cfg, a, b) <==> x.meanDays < y.meanDays))
      && (!Apart(x.rate, y.rate) && !Apart(x.meanDays, y.meanDays) && Apart(x.meanNet, y.meanNet) ==>
            (Better(cfg, a, b) <==> x.meanNet > y.meanNet))
      && (!Apart(x.rate, y.rate) && !Apart(x.meanDays, y.meanDays) && !Apart(x.meanNet, y.meanNet) ==>
            (Better(cfg, a, b) <==>
               x.entries > y.entries || (x.entries == y.entries && cfg.before(a.policy, b.policy))))
  {
  }

  /** Enough trades are thirty entries on ten dates in ten stocks. */
  lemma EnoughIs(s: TradeStats)
    ensures Enough(s) <==> s.entries >= 30 && s.dates >= 10 && s.stocks >= 10
  {
  }

  /**
   * Among policies of one key with the same training rate the winner is held no longer than any later one; with the
   * same days it earns no less; with the same return it has no fewer entries; and with those too its name comes first.
   */
  lemma WinnerBreaksTies(cfg: Setting, data: Data, key: (real, int), k: nat, j: nat, n: nat)
    requires ValidData(cfg, data) && n <= 500 && Wins(cfg, data, key, k, n) && k < j < n && Competes(cfg, data, key, j)
    ensures var x, y := TrialAt(cfg, data, k).train, TrialAt(cfg, data, j).train;
      && y.entries >= 30 && y.dates >= 10 && y.stocks >= 10
      && !(y.rate > x.rate && Apart(x.rate, y.rate))
      && (x.rate == y.rate ==> !(y.meanDays < x.meanDays && Apart(x.meanDays, y.meanDays)))
      && (x.rate == y.rate && x.meanDays == y.meanDays ==> !(y.meanNet > x.meanNet && Apart(x.meanNet, y.meanNet)))
      && (x.rate == y.rate && x.meanDays == y.meanDays && x.meanNet == y.meanNet ==>
            x.entries >= y.entries && (x.entries == y.entries ==> !cfg.before(PolicyAt(j), PolicyAt(k))))
  {
    hide Better, TrialAt, WinnersTo, PolicyAt;
    var a, b := TrialAt(cfg, data, j), TrialAt(cfg, data, k);
    assert !Better(cfg, a, b);
    EnoughIs(a.train);
    BetterIs(cfg, a, b);
  }

  // ---------- the hits of the baseline ----------

  /** The baseline holds one trade for each opportunity, the last one given for it. */
  lemma {:induction false} BaselineHolds(trades: seq<Trade>, id: TradeId)
    ensures id in BaselineOf(trades) <==> exists k :: LastNamed(trades, id, k)
    ensures forall k :: LastNamed(trades, id, k) ==> id in BaselineOf(trades) && BaselineOf(trades)[id] == trades[k]
  {
    if trades != [] {
      var n := |trades| - 1;
      var rest := trades[..n];
      BaselineHolds(rest, id);
      if trades[n].id == id {
        assert LastNamed(trades, id, n);
      } else {
        if k :| LastNamed(rest, id, k) {
          assert LastNamed(trades, id, k);
        }
        forall k | LastNamed(trades, id, k) ensures LastNamed(rest, id, k) && rest[k] == trades[k] {
        }
      }
    }
  }

  ghost predicate LastNamed(trades: seq<Trade>, id: TradeId, k: int) {
    0 <= k < |trades| && trades[k].id == id && forall j :: k < j < |trades| ==> trades[j].id != id
  }

  // ---------- the report ----------

  /** The report lists a comparison for each winner, in the order of targets and batches. */
  lemma {:induction false} ByBatchesAre(cfg: Setting, data: Data, winners: Winners, n: nat, m: nat)
    requires ValidData(cfg, data) && n <= 10 && AllValid(winners) && m < n && KeyAt(m) in winners
    ensures CompareTo(cfg, data, winners[KeyAt(m)], 10).0 in CollectTo(cfg, data, winners, n).byBatches
    ensures KeyAt(m) == (if m < 5 then 2.5 else 3.0, 1 + m % 5)
  {
    hide CompareTo, Better;
    assert |Stops()| == 10;
    if m < n - 1 {
      ByBatchesAre(cfg, data, winners, n - 1, m);
    }
  }
}
