/** Which policies the search picks: what holds of the winners, of the best ones and of the stops around them. */
module Selection {
  import opened Money
  import opened Market
  import opened Simulator
  import opened Stats
  import opened Grid
  import opened Search

  const TOLERANCE := 0.000000000001

  // ---------- comparing two trials ----------

  /** Neither direction of the comparison is off by more than the tolerance in the training rate. */
  lemma BetterNearRate(cfg: Setting, a: Trial, b: Trial)
    ensures Better(cfg, a, b) ==> a.train.rate >= b.train.rate - TOLERANCE
    ensures !Better(cfg, a, b) ==> a.train.rate <= b.train.rate + TOLERANCE
  {
  }

  // ---------- winners ----------

  function TrialAt(cfg: Setting, data: Data, k: nat): (t: Trial)
    requires ValidData(cfg, data) && k < 500
    ensures t.policy == PolicyAt(k)
  {
    Evaluate(cfg, data, PolicyAt(k), map[])
  }

  function KeyOf(p: Policy): (real, int) {
    (p.target, p.batches)
  }

  /** The k-th policy competes for the key: it has the key and enough trades. */
  predicate Competes(cfg: Setting, data: Data, key: (real, int), k: nat)
    requires ValidData(cfg, data) && k < 500
  {
    KeyOf(PolicyAt(k)) == key && Enough(TrialAt(cfg, data, k).train)
  }

  ghost predicate SomeCompetes(cfg: Setting, data: Data, key: (real, int), n: nat)
    requires ValidData(cfg, data) && n <= 500
  {
    exists k: nat :: k < n && Competes(cfg, data, key, k)
  }

  /** The k-th policy wins among the first `n`: it beat the winner before it, and none after it beats it. */
  ghost predicate Wins(cfg: Setting, data: Data, key: (real, int), k: nat, n: nat)
    requires ValidData(cfg, data) && n <= 500
  {
    && k < n && Competes(cfg, data, key, k)
    && (key in WinnersTo(cfg, data, k) ==> Better(cfg, TrialAt(cfg, data, k), WinnersTo(cfg, data, k)[key]))
    && (forall j: nat :: k < j < n && Competes(cfg, data, key, j) ==>
         !Better(cfg, TrialAt(cfg, data, j), TrialAt(cfg, data, k)))
  }

  lemma NoneCompetes(cfg: Setting, data: Data, key: (real, int))
    requires ValidData(cfg, data)
    ensures key !in WinnersTo(cfg, data, 0) && !SomeCompetes(cfg, data, key, 0)
  {
  }

  /** What the next policy does to the winner of a key. */
  lemma NextPolicy(cfg: Setting, data: Data, key: (real, int), n: nat)
    requires ValidData(cfg, data) && n < 500
    ensures
      var before, after, t := WinnersTo(cfg, data, n), WinnersTo(cfg, data, n + 1), TrialAt(cfg, data, n);
      if Competes(cfg, data, key, n) && (key !in before || Better(cfg, t, before[key]))
      then key in after && after[key] == t
      else (key in after <==> key in before) && (key in before ==> after[key] == before[key])
  {
    hide Evaluate, WinnersTo, Better, Enough;
    WinnersStep(cfg, data, n);
  }

  lemma CompetesNext(cfg: Setting, data: Data, key: (real, int), n: nat)
    requires ValidData(cfg, data) && n < 500
    ensures SomeCompetes(cfg, data, key, n + 1) <==> SomeCompetes(cfg, data, key, n) || Competes(cfg, data, key, n)
  {
    hide Competes;
    if k: nat :| k < n && Competes(cfg, data, key, k) {
      assert k < n + 1;
    }
  }

  /** A key has a winner exactly when a policy with the key has enough trades. */
  lemma {:induction false} WinnersExist(cfg: Setting, data: Data, key: (real, int), n: nat)
    requires ValidData(cfg, data) && n <= 500
    ensures key in WinnersTo(cfg, data, n) <==> SomeCompetes(cfg, data, key, n)
  {
    hide Competes, Better, TrialAt, WinnersTo, SomeCompetes;
    if n == 0 {
      NoneCompetes(cfg, data, key);
    } else {
      WinnersExist(cfg, data, key, n - 1);
      NextPolicy(cfg, data, key, n - 1);
      CompetesNext(cfg, data, key, n - 1);
    }
  }

  lemma WinsOn(cfg: Setting, data: Data, key: (real, int), k: nat, n: nat)
    requires ValidData(cfg, data) && n < 500 && Wins(cfg, data, key, k, n)
    requires Competes(cfg, data, key, n) ==> !Better(cfg, TrialAt(cfg, data, n), TrialAt(cfg, data, k))
    ensures Wins(cfg, data, key, k, n + 1)
  {
    hide Competes, Better, TrialAt, WinnersTo;
  }

  lemma WinsAtOnce(cfg: Setting, data: Data, key: (real, int), n: nat)
    requires ValidData(cfg, data) && n < 500 && Competes(cfg, data, key, n)
    requires key in WinnersTo(cfg, data, n) ==> Better(cfg, TrialAt(cfg, data, n), WinnersTo(cfg, data, n)[key])
    ensures Wins(cfg, data, key, n, n + 1)
  {
    hide Competes, Better, TrialAt, WinnersTo;
  }

  /** The winner has enough trades and the key; it beat the winner before it, and no later competitor beats it. */
  lemma {:induction false} WinnersWin(cfg: Setting, data: Data, key: (real, int), n: nat) returns (k: nat)
    requires ValidData(cfg, data) && n <= 500 && key in WinnersTo(cfg, data, n)
    ensures k < n && Wins(cfg, data, key, k, n) && WinnersTo(cfg, data, n)[key] == TrialAt(cfg, data, k)
  {
    hide Competes, Better, TrialAt, WinnersTo, Wins;
    if n == 0 {
      NoneCompetes(cfg, data, key);
      assert false;
    } else {
      NextPolicy(cfg, data, key, n - 1);
      var before, t := WinnersTo(cfg, data, n - 1), TrialAt(cfg, data, n - 1);
      if Competes(cfg, data, key, n - 1) && (key !in before || Better(cfg, t, before[key])) {
        WinsAtOnce(cfg, data, key, n - 1);
        k := n - 1;
      } else {
        k := WinnersWin(cfg, data, key, n - 1);
        WinsOn(cfg, data, key, k, n - 1);
      }
    }
  }

  /** Whatever the ties, the winner's training rate is within 5e-10 of the best rate of its key. */
  lemma {:induction false} WinnerNearBest(cfg: Setting, data: Data, key: (real, int), n: nat, j: nat)
    requires ValidData(cfg, data) && j < n <= 500 && Competes(cfg, data, key, j)
    ensures key in WinnersTo(cfg, data, n)
    ensures TrialAt(cfg, data, j).train.rate <= WinnersTo(cfg, data, n)[key].train.rate + n as real * TOLERANCE
  {
    hide Competes, Better, TrialAt, WinnersTo;
    NextPolicy(cfg, data, key, n - 1);
    var before, t := WinnersTo(cfg, data, n - 1), TrialAt(cfg, data, n - 1);
    if j < n - 1 {
      WinnerNearBest(cfg, data, key, n - 1, j);
      BetterNearRate(cfg, t, before[key]);
    } else if key in before {
      BetterNearRate(cfg, t, before[key]);
    }
  }

  // ---------- the best winner of each target ----------

  /** The n-th key has a winner for the target. */
  predicate HasWinner(winners: Winners, target: real, n: nat)
    requires n < 10
  {
    KeyAt(n).0 == target && KeyAt(n) in winners
  }

  ghost predicate Leads(cfg: Setting, winners: Winners, target: real, k: nat, n: nat)
    requires n <= 10
  {
    && k < n && HasWinner(winners, target, k)
    && (forall j: nat :: k < j < n && HasWinner(winners, target, j) ==>
         !Better(cfg, winners[KeyAt(j)], winners[KeyAt(k)]))
  }

  ghost predicate SomeWinner(winners: Winners, target: real, n: nat)
    requires n <= 10
  {
    exists k: nat :: k < n && HasWinner(winners, target, k)
  }

  lemma NextKey(cfg: Setting, data: Data, winners: Winners, target: real, n: nat)
    requires ValidData(cfg, data) && n < 10 && AllValid(winners)
    ensures
      var before, after := CollectTo(cfg, data, winners, n).best, CollectTo(cfg, data, winners, n + 1).best;
      if HasWinner(winners, target, n) && (target !in before || Better(cfg, winners[KeyAt(n)], before[target]))
      then target in after && after[target] == winners[KeyAt(n)]
      else (target in after <==> target in before) && (target in before ==> after[target] == before[target])
  {
    hide CompareTo, Better;
    CollectStep(cfg, data, winners, n);
  }

  /** A target has a best winner exactly when it has a winner. */
  lemma {:induction false} BestExists(cfg: Setting, data: Data, winners: Winners, target: real, n: nat)
    requires ValidData(cfg, data) && n <= 10 && AllValid(winners)
    ensures target in CollectTo(cfg, data, winners, n).best <==> SomeWinner(winners, target, n)
  {
    hide Better, CollectTo, ValidData, AllValid, SomeWinner, HasWinner;
    if n == 0 {
      NoBest(cfg, data, winners, target);
    } else {
      BestExists(cfg, data, winners, target, n - 1);
      NextKey(cfg, data, winners, target, n - 1);
      SomeNext(winners, target, n - 1);
    }
  }

  lemma NoBest(cfg: Setting, data: Data, winners: Winners, target: real)
    requires ValidData(cfg, data) && AllValid(winners)
    ensures target !in CollectTo(cfg, data, winners, 0).best && !SomeWinner(winners, target, 0)
  {
  }

  /** The best winner of a target is a winner of the target, and none that is looked at later is better than it. */
  lemma {:induction false} BestLeads(cfg: Setting, data: Data, winners: Winners, target: real, n: nat) returns (k: nat)
    requires ValidData(cfg, data) && n <= 10 && AllValid(winners) && target in CollectTo(cfg, data, winners, n).best
    ensures Leads(cfg, winners, target, k, n) && CollectTo(cfg, data, winners, n).best[target] == winners[KeyAt(k)]
  {
    hide Better, CollectTo, ValidData, AllValid, SomeWinner;
    if n == 0 {
      NoBest(cfg, data, winners, target);
      assert false;
    } else {
      NextKey(cfg, data, winners, target, n - 1);
      var before := CollectTo(cfg, data, winners, n - 1).best;
      if HasWinner(winners, target, n - 1)
        && (target !in before || Better(cfg, winners[KeyAt(n - 1)], before[target])) {
        k := n - 1;
      } else {
        k := BestLeads(cfg, data, winners, target, n - 1);
      }
    }
  }

  lemma SomeNext(winners: Winners, target: real, n: nat)
    requires n < 10
    ensures SomeWinner(winners, target, n + 1) <==> SomeWinner(winners, target, n) || HasWinner(winners, target, n)
  {
    hide HasWinner;
    if k: nat :| k < n && HasWinner(winners, target, k) {
      assert k < n + 1;
    }
  }

  // ---------- stops ----------

  /** The trial of the k-th stop around a policy, its hits compared with those of the policy. */
  function StopTrial(cfg: Setting, data: Data, base: Trial, k: nat): (t: Trial)
    requires ValidData(cfg, data) && base.policy.Valid() && k < |Stops()|
    ensures t.policy == WithStop(base.policy, k)
  {
    Evaluate(cfg, data, WithStop(base.policy, k),
      BaselineOf(Trades(cfg.s, base.policy, OppsOf(data, base.policy.rule))))
  }

  /** A stop that costs at most two points of the training rate and retains 95 percent of the targets. */
  predicate Acceptable(base: Trial, t: Trial) {
    base.train.rate - t.train.rate <= 0.02 + TOLERANCE && t.train.retention >= 0.95 - TOLERANCE
  }

  /** The k-th stop is the first acceptable one. */
  ghost predicate FirstAcceptable(cfg: Setting, data: Data, base: Trial, k: nat, n: nat)
    requires ValidData(cfg, data) && base.policy.Valid() && n <= |Stops()|
  {
    && k < n && Acceptable(base, StopTrial(cfg, data, base, k))
    && (forall j: nat :: j < k ==> !Acceptable(base, StopTrial(cfg, data, base, j)))
  }

  ghost predicate NoneAcceptable(cfg: Setting, data: Data, base: Trial, n: nat)
    requires ValidData(cfg, data) && base.policy.Valid() && n <= |Stops()|
  {
    forall j: nat :: j < n ==> !Acceptable(base, StopTrial(cfg, data, base, j))
  }

  /**
    The k-th stop's training rate exceeds that of every stop before it, and none after it exceeds it by the tolerance.
  */
  ghost predicate Closest(cfg: Setting, data: Data, base: Trial, k: nat, n: nat)
    requires ValidData(cfg, data) && base.policy.Valid() && n <= |Stops()|
  {
    && k < n
    && (forall j: nat :: j < k ==> StopTrial(cfg, data, base, j).train.rate < StopTrial(cfg, data, base, k).train.rate)
    && (forall j: nat :: k < j < n ==>
          StopTrial(cfg, data, base, j).train.rate <= StopTrial(cfg, data, base, k).train.rate + TOLERANCE)
  }

  lemma {:induction false} FoldRate(trades: seq<Trade>, split: Split, baseline: Baseline)
    ensures Fold(trades, split, baseline).s.rate == 0.0
  {
    if trades != [] {
      FoldRate(trades[..|trades| - 1], split, baseline);
    }
  }

  lemma RateIsShare(trades: seq<Trade>, split: Split, baseline: Baseline)
    ensures StatsOf(trades, split, baseline).rate >= 0.0
  {
    hide Fold, TailSize, Stats.Sum;
    FoldRate(trades, split, baseline);
  }

  lemma NextStop(cfg: Setting, data: Data, base: Trial, n: nat)
    requires ValidData(cfg, data) && base.policy.Valid() && n < |Stops()|
    ensures var (c, rate) := CompareTo(cfg, data, base, n);
      CompareTo(cfg, data, base, n + 1) == Weigh(base, c, rate, StopTrial(cfg, data, base, n))
  {
    hide CompareTo, Weigh, Evaluate;
    CompareStep(cfg, data, base, n);
  }

  lemma StopRate(cfg: Setting, data: Data, base: Trial, k: nat)
    requires ValidData(cfg, data) && base.policy.Valid() && k < |Stops()|
    ensures StopTrial(cfg, data, base, k).train.rate >= 0.0
  {
    hide StatsOf;
    var p := WithStop(base.policy, k);
    RateIsShare(Trades(cfg.s, p, OppsOf(data, p.rule)), Training,
      BaselineOf(Trades(cfg.s, base.policy, OppsOf(data, base.policy.rule))));
  }

  /** What the compromise is: the first acceptable stop, and nothing when there is none. */
  lemma {:induction false} CompromiseIsFirst(cfg: Setting, data: Data, base: Trial, n: nat)
    requires ValidData(cfg, data) && base.policy.Valid() && n <= |Stops()|
    ensures var c := CompareTo(cfg, data, base, n).0;
      && (c.compromise.None? <==> NoneAcceptable(cfg, data, base, n))
      && (c.compromise.Some? ==>
            exists k: nat :: FirstAcceptable(cfg, data, base, k, n) && c.compromise == Some(WithStop(base.policy, k)))
  {
    hide CompareTo, StopTrial, WithStop, Acceptable;
    if n == 0 {
      NothingCompared(cfg, data, base);
    } else {
      CompromiseIsFirst(cfg, data, base, n - 1);
      NextStop(cfg, data, base, n - 1);
      var before, rate := CompareTo(cfg, data, base, n - 1).0, CompareTo(cfg, data, base, n - 1).1;
      WeighIs(base, before, rate, StopTrial(cfg, data, base, n - 1));
      if before.compromise.Some? {
        var k: nat :| FirstAcceptable(cfg, data, base, k, n - 1) && before.compromise == Some(WithStop(base.policy, k));
        assert FirstAcceptable(cfg, data, base, k, n);
      } else if Acceptable(base, StopTrial(cfg, data, base, n - 1)) {
        assert FirstAcceptable(cfg, data, base, n - 1, n);
      }
    }
  }

  lemma WeighIs(base: Trial, c: Comparison, rate: real, t: Trial)
    ensures var (c', rate') := Weigh(base, c, rate, t);
      && c'.compromise == (if c.compromise.None? && Acceptable(base, t) then Some(t.policy) else c.compromise)
      && (if t.train.rate > rate + TOLERANCE then c'.closest == Some(t.policy) && rate' == t.train.rate
          else c'.closest == c.closest && rate' == rate)
      && c'.target == c.target && c'.batches == c.batches && c'.baseline == c.baseline
  {
  }

  /** There always is a closest stop, and its training rate is within the tolerance of every stop's. */
  lemma {:induction false} ClosestIsClosest(cfg: Setting, data: Data, base: Trial, n: nat) returns (k: nat)
    requires ValidData(cfg, data) && base.policy.Valid() && 1 <= n <= |Stops()|
    ensures Closest(cfg, data, base, k, n)
    ensures CompareTo(cfg, data, base, n).0.closest == Some(WithStop(base.policy, k))
    ensures CompareTo(cfg, data, base, n).1 == StopTrial(cfg, data, base, k).train.rate
    ensures forall j: nat :: j < n ==>
      StopTrial(cfg, data, base, j).train.rate <= StopTrial(cfg, data, base, k).train.rate + TOLERANCE
  {
    hide CompareTo, StopTrial, WithStop, Acceptable;
    var t := StopTrial(cfg, data, base, n - 1);
    NextStop(cfg, data, base, n - 1);
    var before, rate := CompareTo(cfg, data, base, n - 1).0, CompareTo(cfg, data, base, n - 1).1;
    WeighIs(base, before, rate, t);
    StopRate(cfg, data, base, n - 1);
    if n == 1 {
      NothingCompared(cfg, data, base);
      k := 0;
    } else {
      k := ClosestIsClosest(cfg, data, base, n - 1);
      if t.train.rate > rate + TOLERANCE {
        k := n - 1;
      }
    }
  }
}
