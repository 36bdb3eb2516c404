/** The orders of each day of a simulated trade, decided by the bars, the events and the position of the morning. */
module Fills {
  import opened Money
  import opened Market
  import opened Trading
  import opened Simulator
  import opened Ledger
  import opened Losses
  import opened Costs

  function FillsOf(f: Flow): seq<Fill> {
    match f
    case Return(t) => t.fills
    case Next(st) => st.t.fills
    case Go(st) => st.t.fills
  }

  // ---------- the open ----------

  /** At the open a held position stops: it stopped before, or the open is at or below its stop price. */
  ghost predicate StopsAtOpen(s: Strategy, policy: Policy, o: Opportunity, i: int, st: State)
    requires Valid(s, policy, o) && 1 <= i < |o.bars|
  {
    var open := o.bars[i].open;
    Held(st.h) && (st.t.stopTriggered || (policy.stop > 0.0 && open <= StopPrice(s, st.h, policy.stop, open)))
  }

  /** At the open a held position that does not stop meets the target, and can be sold. */
  ghost predicate TargetAtOpen(s: Strategy, policy: Policy, o: Opportunity, i: int, st: State)
    requires Valid(s, policy, o) && 1 <= i < |o.bars|
  {
    && Held(st.h) && !StopsAtOpen(s, policy, o, i, st) && !SellBlocked(o.bars[i], o.bars[i - 1].close, o.code)
    && Net(s, st.h, Mark(s, o.bars[i].open)) >= policy.target
  }

  /** The day can be traded, and its open ends nothing. */
  ghost predicate PassesOpen(s: Strategy, policy: Policy, o: Opportunity, i: int, st: State)
    requires Valid(s, policy, o) && 1 <= i < |o.bars|
  {
    i !in o.invalid && !StopsAtOpen(s, policy, o, i, st) && !TargetAtOpen(s, policy, o, i, st)
  }

  /** A sale of the whole position. */
  function SaleOf(s: Strategy, b: Bar, shares: nat, price: real, cause: Cause): Fill {
    Fill(b.date, Sell, shares, price, Proceeds(s, price, shares), cause)
  }

  /** The sale at the open: of everything, at the open after slippage. */
  ghost function OpeningSale(s: Strategy, policy: Policy, o: Opportunity, i: int, st: State): seq<Fill>
    requires Valid(s, policy, o) && 1 <= i < |o.bars|
  {
    var b := o.bars[i];
    if i in o.invalid || SellBlocked(b, o.bars[i - 1].close, o.code) then []
    else if StopsAtOpen(s, policy, o, i, st) then
      [SaleOf(s, b, All(st.h), FillAt(s, b, b.open), if st.t.stopTriggered then st.stopCause else StopGap)]
    else if TargetAtOpen(s, policy, o, i, st) then [SaleOf(s, b, All(st.h), FillAt(s, b, b.open), Target)]
    else []
  }

  /** In the morning everything is sellable, and from the second day on there is something to sell. */
  lemma MorningPosition(s: Strategy, policy: Policy, o: Opportunity, i: int, st: State)
    requires Valid(s, policy, o) && 1 <= i < |o.bars| && Kept(s, policy, o, i - 1, st)
    ensures Shares(st.h.lots, i, true) == All(st.h)
    ensures if i == 1 then st == Start(o) && All(st.h) == 0 && !Held(st.h) else Held(st.h)
  {
    hide SharesOf, CashOf, Orders, BoughtBefore, RespectsT1, OnGrid;
    Overnight(s, policy, o, i - 1, st.h, st.t);
  }

  /** Selling a position of which everything is sellable empties it. */
  lemma SellsAll(s: Strategy, st: State, b: Bar, i: int, price: real, cause: Cause)
    requires Shares(st.h.lots, i, true) == All(st.h)
    ensures var st' := SellAll(s, st, b, i, price, cause);
      && st'.t == st.t.(fills := st.t.fills + [SaleOf(s, b, All(st.h), price, cause)]) && All(st'.h) == 0
      && st'.h.invested == st.h.invested && st'.stopCause == st.stopCause
  {
    hide Proceeds;
    SharesSold(st.h.lots, i);
  }

  lemma OpeningTrades(s: Strategy, policy: Policy, o: Opportunity, i: int, st: State)
    requires Valid(s, policy, o) && 1 <= i < |o.bars| && i <= policy.horizon + 1
    requires Kept(s, policy, o, i - 1, st) && Ready(o, i, st)
    ensures var f := Opening(s, policy, o, i, st);
      && FillsOf(f) == st.t.fills + OpeningSale(s, policy, o, i, st)
      && (f.Go? <==> PassesOpen(s, policy, o, i, st))
      && (f.Go? ==> f.st == if i == 1 then st else st.(t := st.t.(holdingDays := i - 1)))
  {
    MorningPosition(s, policy, o, i, st);
    var b := o.bars[i];
    if i in o.invalid || i == 1 {
    } else {
      OpeningOf(s, policy, o, i, st);
    }
  }

  lemma OpeningOf(s: Strategy, policy: Policy, o: Opportunity, i: int, st: State)
    requires Valid(s, policy, o) && 1 < i < |o.bars| && Ready(o, i, st) && i !in o.invalid
    requires Shares(st.h.lots, i, true) == All(st.h)
    ensures var f := Opening(s, policy, o, i, st);
      && FillsOf(f) == st.t.fills + OpeningSale(s, policy, o, i, st)
      && (f.Go? <==> PassesOpen(s, policy, o, i, st))
      && (f.Go? ==> f.st == st.(t := st.t.(holdingDays := i - 1)))
  {
    hide SellAll, SellBlocked, StopPrice, Mark, Net, FillAt, SaleOf, Shares;
    var b := o.bars[i];
    var t := st.t.(holdingDays := i - 1);
    var gapped := State(st.h, t.(stopTriggered := true, stopTriggerDate := Some(b.date)), StopGap);
    SellsAll(s, gapped, b, i, FillAt(s, b, b.open), StopGap);
    SellsAll(s, st.(t := t), b, i, FillAt(s, b, b.open), st.stopCause);
    SellsAll(s, st.(t := t.(targetHit := true, targetDay := i - 1)), b, i, FillAt(s, b, b.open), Target);
  }

  // ---------- the purchase ----------

  /** The opening gap stays within the limit. */
  predicate SmallGap(s: Strategy, b: Bar, previous: Bar)
    requires previous.close > 0.0
  {
    -s.maxEntryGapPct <= (b.open / previous.close - 1.0) * 100.0 <= s.maxEntryGapPct
  }

  /** The price of an order is within the day, and some order fits the share of the cash that is left for a batch. */
  ghost predicate Orderable(s: Strategy, policy: Policy, o: Opportunity, i: int, invested: real)
    requires Valid(s, policy, o) && 1 <= i < |o.bars|
  {
    && BuyPrice(s, o.bars[i]) <= o.bars[i].high + 0.00000001
    && exists n: nat :: Fits(s, o.code, BuyPrice(s, o.bars[i]), BatchCash(s, policy, invested), n)
  }

  /** An equal share of the cash for each batch, or what is left of it. */
  function BatchCash(s: Strategy, policy: Policy, invested: real): real
    requires policy.batches >= 1
  {
    var share, rest := s.tradeCash / policy.batches as real, s.tradeCash - invested;
    if share <= rest then share else rest
  }

  /**
   * The position is bought or added to: a batch is left, it is the first day or the close of the day before showed a
   * signal inside the horizon, the day is traded at more than one price without a large gap, and an order fits.
   */
  ghost predicate BuysOn(s: Strategy, policy: Policy, o: Opportunity, i: int, st: State)
    requires Valid(s, policy, o) && 1 <= i < |o.bars|
  {
    && PassesOpen(s, policy, o, i, st) && Adds(s, policy, o, i, st)
  }

  ghost predicate Adds(s: Strategy, policy: Policy, o: Opportunity, i: int, st: State)
    requires Valid(s, policy, o) && 1 <= i < |o.bars|
  {
    && st.t.batchesFilled < policy.batches && (i == 1 || (i < policy.horizon + 1 && o.events[i - 1]))
    && i !in o.unknownAdds
    && o.bars[i].volume > 0.0 && o.bars[i].high - o.bars[i].low >= 0.005
    && SmallGap(s, o.bars[i], o.bars[i - 1])
    && Orderable(s, policy, o, i, st.h.invested)
  }

  /** The fill is the largest order that fits, at the order price, for its cost. */
  ghost predicate Purchase(s: Strategy, policy: Policy, o: Opportunity, i: int, invested: real, fill: Fill)
    requires Valid(s, policy, o) && 1 <= i < |o.bars|
  {
    && fill.date == o.bars[i].date && fill.side == Buy && fill.reason == Signal
    && fill.price == BuyPrice(s, o.bars[i]) && fill.cash == PurchaseCost(s, fill.price, fill.shares)
    && Largest(s, o.code, fill.price, BatchCash(s, policy, invested), fill.shares)
  }

  /** The order of a day on which a batch may be added. */
  function OrderOn(s: Strategy, policy: Policy, o: Opportunity, i: int, st: State): Option<(Holding, Fill)>
    requires Valid(s, policy, o) && 1 <= i < |o.bars|
  {
    AtLeastACent(o.bars[i].open);
    if o.bars[i].volume > 0.0 && !OnePrice(o.bars[i]) && GapPct(o.bars[i], o.bars[i - 1]) <= s.maxEntryGapPct
    then Bought(s, st.h, o.code, o.bars[i], i, Budget(s, policy, st.h.invested)) else None
  }

  lemma OrderIs(s: Strategy, policy: Policy, o: Opportunity, i: int, st: State)
    requires Valid(s, policy, o) && 1 <= i < |o.bars|
    ensures var r, b := OrderOn(s, policy, o, i, st), o.bars[i];
      && (r.Some? <==>
            && b.volume > 0.0 && b.high - b.low >= 0.005 && SmallGap(s, b, o.bars[i - 1])
            && Orderable(s, policy, o, i, st.h.invested))
      && (r.Some? ==>
            && Purchase(s, policy, o, i, st.h.invested, r.value.1)
            && r.value.0 == Holding(st.h.lots + [Lot(r.value.1.shares, i)], st.h.invested + r.value.1.cash,
                 st.h.realized))
  {
    hide Bought, OnGrid, BuyPrice, PurchaseCost, Fits, Largest, GapPct, SmallGap;
    assert Budget(s, policy, st.h.invested) == BatchCash(s, policy, st.h.invested);
    AtLeastACent(o.bars[i].open);
    BoughtIff(s, st.h, o.code, o.bars[i], i, Budget(s, policy, st.h.invested));
    GapIs(s, o.bars[i], o.bars[i - 1]);
  }

  lemma EntryTrades(s: Strategy, policy: Policy, o: Opportunity, i: int, st: State) returns (fill: Option<Fill>)
    requires Valid(s, policy, o) && 1 <= i < |o.bars| && i <= policy.horizon + 1
    requires (i == 1 && st == Start(o)) || (i > 1 && Held(st.h))
    ensures fill.Some? <==> Adds(s, policy, o, i, st)
    ensures fill.Some? ==> Purchase(s, policy, o, i, st.h.invested, fill.value)
    ensures Entry(s, policy, o, i, st) ==
      if fill.Some? then Go(BatchAdded(st, i, fill.value))
      else if LacksContext(policy, o, i, st) then Return(st.t.(status := MissingAddContext))
      else if i == 1 then Return(st.t)
      else Go(st)
  {
    hide OrderOn, OnGrid, Bought, Budget, GapPct, OnePrice, Orderable, SmallGap, Purchase, Shares;
    OrderIs(s, policy, o, i, st);
    EntryOf(s, policy, o, i, st);
    fill := None;
    if Adds(s, policy, o, i, st) {
      fill := Some(OrderOn(s, policy, o, i, st).value.1);
    }
  }

  lemma EntryOf(s: Strategy, policy: Policy, o: Opportunity, i: int, st: State)
    requires Valid(s, policy, o) && 1 <= i < |o.bars|
    requires (i == 1 && st == Start(o)) || (i > 1 && Held(st.h))
    ensures var order := OrderOn(s, policy, o, i, st);
      Entry(s, policy, o, i, st) ==
      if st.t.batchesFilled < policy.batches && (i == 1 || (i < policy.horizon + 1 && o.events[i - 1])) then
        if i in o.unknownAdds then Return(st.t.(status := MissingAddContext))
        else if order.Some? then Go(Filled(st, order.value.0, order.value.1))
        else if i == 1 then Return(st.t) else Go(st)
      else Go(st)
  {
    hide OnGrid, Bought, Budget, GapPct, OnePrice, Shares, Filled;
  }

  /** A batch could be added, but it is not known whether the signal still stood. */
  predicate LacksContext(policy: Policy, o: Opportunity, i: int, st: State)
    requires 1 <= i <= |o.events|
  {
    && st.t.batchesFilled < policy.batches && (i == 1 || (i < policy.horizon + 1 && o.events[i - 1]))
    && i in o.unknownAdds
  }

  /** The position and the trade with one more batch. */
  function BatchAdded(st: State, i: int, fill: Fill): State {
    var invested := st.h.invested + fill.cash;
    var t := st.t.(fills := st.t.fills + [fill], batchesFilled := st.t.batchesFilled + 1, invested := invested);
    State(Holding(st.h.lots + [Lot(fill.shares, i)], invested, st.h.realized),
      if t.entryDate.None? then t.(entryDate := Some(fill.date), status := Unresolved) else t, st.stopCause)
  }

  lemma GapIs(s: Strategy, b: Bar, previous: Bar)
    requires previous.close > 0.0
    ensures GapPct(b, previous) <= s.maxEntryGapPct <==> SmallGap(s, b, previous)
  {
    var x := b.open / previous.close - 1.0;
  }

  // ---------- the rest of the day ----------

  /** The low of the day touches the stop price. */
  ghost predicate TouchesStop(s: Strategy, policy: Policy, b: Bar, h: Holding)
    requires s.Valid() && Held(h) && b.open > 0.0
  {
    policy.stop > 0.0 && b.low <= StopPrice(s, h, policy.stop, b.open)
  }

  /** At the high of the day the position would have met the target. */
  ghost predicate ReachesTarget(s: Strategy, policy: Policy, b: Bar, h: Holding)
    requires Held(h)
  {
    Net(s, h, Mark(s, b.high)) >= policy.target - 0.000000001
  }

  /**
   * The sale during the day. A touched stop sells what was bought before, at the stop price or the high, whichever is
   * lower, after slippage; otherwise a position without new shares is sold at the target price when the high meets the
   * target, and at the close on the last day.
   */
  ghost function DaySale(s: Strategy, policy: Policy, o: Opportunity, i: int, st: State): seq<Fill>
    requires Valid(s, policy, o) && 1 <= i < |o.bars| && Held(st.h)
  {
    var b, all, sellable := o.bars[i], All(st.h), Shares(st.h.lots, i, true);
    if SellBlocked(b, o.bars[i - 1].close, o.code) then []
    else if TouchesStop(s, policy, b, st.h) then
      var stop := StopPrice(s, st.h, policy.stop, b.open);
      if sellable == 0 then []
      else [SaleOf(s, b, sellable, FillAt(s, b, if b.high < stop then b.high else stop), st.stopCause)]
    else if sellable != all then []
    else if ReachesTarget(s, policy, b, st.h) then
      [SaleOf(s, b, all, Price(s, st.h, policy.target, b.open), Target)]
    else if i == policy.horizon + 1 then [SaleOf(s, b, all, FillAt(s, b, b.close), Timeout)]
    else []
  }

  function TradeOf(f: Flow): Trade {
    match f
    case Return(t) => t
    case Next(st) => st.t
    case Go(st) => st.t
  }

  /** What the day leaves in the report. */
  ghost predicate Marked(s: Strategy, policy: Policy, o: Opportunity, i: int, st: State, t: Trade)
    requires Valid(s, policy, o) && 1 <= i < |o.bars| && Held(st.h)
  {
    var b, locked := o.bars[i], Shares(st.h.lots, i, true) != All(st.h);
    var stop, target := TouchesStop(s, policy, b, st.h), ReachesTarget(s, policy, b, st.h);
    && t.fills == st.t.fills + DaySale(s, policy, o, i, st)
    && t.entryCloseNetPct == (if i == 1 then Net(s, st.h, Mark(s, b.close)) else st.t.entryCloseNetPct)
    && (t.targetBlockedT1 <==> st.t.targetBlockedT1 || (target && locked))
    && (t.stopTriggered <==> st.t.stopTriggered || stop)
    && t.stopTriggerDate == (if stop then Some(b.date) else st.t.stopTriggerDate)
    && (t.ambiguous <==> if stop then target && !locked else st.t.ambiguous)
    && (t.blockedByT1 <==> if stop then locked else st.t.blockedByT1)
    && t.batchesFilled == st.t.batchesFilled
  }

  /** A sale of what can be sold; the position is empty afterwards exactly when nothing is locked. */
  lemma SellsSome(s: Strategy, st: State, b: Bar, i: int, price: real, cause: Cause)
    ensures var st' := SellAll(s, st, b, i, price, cause);
      && st'.t == st.t.(fills := st.t.fills + [SaleOf(s, b, Shares(st.h.lots, i, true), price, cause)])
      && All(st'.h) == All(st.h) - Shares(st.h.lots, i, true)
      && st'.h.invested == st.h.invested && st'.stopCause == st.stopCause
  {
    hide Proceeds;
    SharesSold(st.h.lots, i);
  }
  /** How the day ends: with everything sold, or not. */
  ghost predicate EndsWell(s: Strategy, policy: Policy, o: Opportunity, i: int, st: State, f: Flow)
    requires Valid(s, policy, o) && 1 <= i < |o.bars| && Held(st.h)
  {
    var b, locked := o.bars[i], Shares(st.h.lots, i, true) != All(st.h);
    var stop, target := TouchesStop(s, policy, b, st.h), ReachesTarget(s, policy, b, st.h);
    var free := !SellBlocked(b, o.bars[i - 1].close, o.code) && !locked;
    && (f.Return? <==> free && (stop || target || i == policy.horizon + 1))
    && (f.Return? ==> f.t.status == Exit(if stop then st.stopCause else if target then Target else Timeout))
  }

  lemma DayTrades(s: Strategy, policy: Policy, o: Opportunity, i: int, st: State)
    requires Valid(s, policy, o) && 1 <= i < |o.bars| && Held(st.h)
    requires Shares(st.h.lots, i, true) <= All(st.h)
    ensures Marked(s, policy, o, i, st, TradeOf(Intraday(s, policy, o, i, st)))
    ensures EndsWell(s, policy, o, i, st, Intraday(s, policy, o, i, st))
  {
    hide Intraday, Marked, EndsWell, Net, Mark, StopPrice;
    if TouchesStop(s, policy, o.bars[i], st.h) {
      StoppedTrades(s, policy, o, i, st);
    } else {
      UnstoppedTrades(s, policy, o, i, st);
    }
  }

  /** The trade before the stop and the target of the day are looked at. */
  ghost function Valued(s: Strategy, policy: Policy, o: Opportunity, i: int, st: State): Trade
    requires Valid(s, policy, o) && 1 <= i < |o.bars| && Held(st.h)
  {
    var b := o.bars[i];
    var t0 := if i == 1 then st.t.(entryCloseNetPct := Net(s, st.h, Mark(s, b.close))) else st.t;
    if ReachesTarget(s, policy, b, st.h) && Shares(st.h.lots, i, true) < All(st.h)
    then t0.(targetBlockedT1 := true) else t0
  }

  /** The trade of a touched stop, before anything is sold. */
  ghost function StoppedTrade(s: Strategy, policy: Policy, o: Opportunity, i: int, st: State): Trade
    requires Valid(s, policy, o) && 1 <= i < |o.bars| && Held(st.h)
  {
    var all, sellable := All(st.h), Shares(st.h.lots, i, true);
    var target := ReachesTarget(s, policy, o.bars[i], st.h);
    Valued(s, policy, o, i, st).(stopTriggered := true, stopTriggerDate := Some(o.bars[i].date),
      ambiguous := target && sellable == all, blockedByT1 := sellable < all)
  }

  /** The day ends after a sale that empties the position. */
  function Ended(s: Strategy, policy: Policy, o: Opportunity, i: int, st: State, cause: Cause): Flow
    requires 1 <= i < |o.bars| && st.h.invested != 0.0
  {
    Return(Finish(s, policy, st.h, st.t, o.bars[i], i, cause))
  }

  lemma StoppedIs(s: Strategy, policy: Policy, o: Opportunity, i: int, st: State)
    requires Valid(s, policy, o) && 1 <= i < |o.bars| && Held(st.h) && TouchesStop(s, policy, o.bars[i], st.h)
    ensures var b, t := o.bars[i], StoppedTrade(s, policy, o, i, st);
      var sold := SellAll(s, st.(t := t), b, i, FillAt(s, b, Min(b.high, StopPrice(s, st.h, policy.stop, b.open))),
        st.stopCause);
      var sells := !SellBlocked(b, o.bars[i - 1].close, o.code) && Shares(st.h.lots, i, true) > 0;
      && sold.h.invested != 0.0
      && Intraday(s, policy, o, i, st)
        == if sells then if All(sold.h) == 0 then Ended(s, policy, o, i, sold, sold.stopCause) else Next(sold)
           else Next(st.(t := t))
  {
    hide SellBlocked, StopPrice, Mark, Net, FillAt, Shares, Finish, Proceeds, Unlocked, OnGrid, Min;
  }

  lemma StoppedTrades(s: Strategy, policy: Policy, o: Opportunity, i: int, st: State)
    requires Valid(s, policy, o) && 1 <= i < |o.bars| && Held(st.h)
    requires Shares(st.h.lots, i, true) <= All(st.h) && TouchesStop(s, policy, o.bars[i], st.h)
    ensures Marked(s, policy, o, i, st, TradeOf(Intraday(s, policy, o, i, st)))
    ensures EndsWell(s, policy, o, i, st, Intraday(s, policy, o, i, st))
  {
    hide Intraday, SellAll, SellBlocked, StopPrice, Mark, Net, FillAt, SaleOf, Shares, OnGrid, TouchesStop,
      ReachesTarget;
    var b := o.bars[i];
    StoppedIs(s, policy, o, i, st);
    var trigger := StopPrice(s, st.h, policy.stop, b.open);
    SellsSome(s, st.(t := StoppedTrade(s, policy, o, i, st)), b, i, FillAt(s, b, Min(b.high, trigger)), st.stopCause);
  }

  lemma UnstoppedIs(s: Strategy, policy: Policy, o: Opportunity, i: int, st: State)
    requires Valid(s, policy, o) && 1 <= i < |o.bars| && Held(st.h) && !TouchesStop(s, policy, o.bars[i], st.h)
    requires Shares(st.h.lots, i, true) <= All(st.h)
    ensures var b, t := o.bars[i], Valued(s, policy, o, i, st);
      var hit := SellAll(s, st.(t := t.(targetHit := true, targetDay := i - 1)), b, i,
        Price(s, st.h, policy.target, b.open), Target);
      var late := SellAll(s, st.(t := t), b, i, FillAt(s, b, b.close), Timeout);
      var free := !SellBlocked(b, o.bars[i - 1].close, o.code) && Shares(st.h.lots, i, true) == All(st.h);
      && hit.h.invested != 0.0 && late.h.invested != 0.0
      && Intraday(s, policy, o, i, st)
        == if free && ReachesTarget(s, policy, b, st.h) then Ended(s, policy, o, i, hit, Target)
           else if free && i == policy.horizon + 1 then Ended(s, policy, o, i, late, Timeout)
           else Next(st.(t := t))
  {
    hide SellBlocked, StopPrice, Mark, Net, FillAt, Shares, Finish, Proceeds, Unlocked, OnGrid, Min, Price;
  }

  lemma UnstoppedTrades(s: Strategy, policy: Policy, o: Opportunity, i: int, st: State)
    requires Valid(s, policy, o) && 1 <= i < |o.bars| && Held(st.h)
    requires Shares(st.h.lots, i, true) <= All(st.h) && !TouchesStop(s, policy, o.bars[i], st.h)
    ensures Marked(s, policy, o, i, st, TradeOf(Intraday(s, policy, o, i, st)))
    ensures EndsWell(s, policy, o, i, st, Intraday(s, policy, o, i, st))
  {
    hide Intraday, SellAll, SellBlocked, StopPrice, Mark, Net, FillAt, SaleOf, Shares, OnGrid, TouchesStop,
      ReachesTarget, Price;
    var b := o.bars[i];
    UnstoppedIs(s, policy, o, i, st);
    var t := Valued(s, policy, o, i, st);
    SellsSome(s, st.(t := t.(targetHit := true, targetDay := i - 1)), b, i, Price(s, st.h, policy.target, b.open),
      Target);
    SellsSome(s, st.(t := t), b, i, FillAt(s, b, b.close), Timeout);
  }

  // ---------- a whole day ----------

  function Listed(fill: Option<Fill>): seq<Fill> {
    if fill.Some? then [fill.value] else []
  }

  /** The position from which the rest of the day goes on. */
  function AtNoon(i: int, st: State, bought: Option<Fill>): State {
    if bought.Some? then BatchAdded(st, i, bought.value) else st
  }

  /** The day goes on after the entry: something is held, and no addition fails for want of context. */
  ghost predicate GoesOnAtNoon(s: Strategy, policy: Policy, o: Opportunity, i: int, st: State)
    requires Valid(s, policy, o) && 1 <= i < |o.bars|
  {
    && PassesOpen(s, policy, o, i, st)
    && (Adds(s, policy, o, i, st) || (i > 1 && !LacksContext(policy, o, i, st)))
  }

  /** The orders of a day, in their order: the sale at the open, the purchase, and the sale during the day. */
  ghost predicate OrdersOf(s: Strategy, policy: Policy, o: Opportunity, i: int, st: State, bought: Option<Fill>,
      orders: seq<Fill>)
    requires Valid(s, policy, o) && 1 <= i < |o.bars|
  {
    && (bought.Some? <==> BuysOn(s, policy, o, i, st))
    && (bought.Some? ==> Purchase(s, policy, o, i, st.h.invested, bought.value))
    && orders == OpeningSale(s, policy, o, i, st) + Listed(bought)
         + (if GoesOnAtNoon(s, policy, o, i, st) && Held(AtNoon(i, st, bought).h)
            then DaySale(s, policy, o, i, AtNoon(i, st, bought)) else [])
  }

  lemma OpeningSaleDated(s: Strategy, policy: Policy, o: Opportunity, i: int, st: State)
    requires Valid(s, policy, o) && 1 <= i < |o.bars|
    ensures forall k :: 0 <= k < |OpeningSale(s, policy, o, i, st)| ==>
      OpeningSale(s, policy, o, i, st)[k].date == o.bars[i].date
    ensures forall k :: 0 <= k < |OpeningSale(s, policy, o, i, st)| ==> OpeningSale(s, policy, o, i, st)[k].side == Sell
    ensures PassesOpen(s, policy, o, i, st) ==> OpeningSale(s, policy, o, i, st) == []
  {
    hide SellBlocked, StopPrice, Mark, Net, FillAt, Proceeds;
  }

  lemma DaySaleDated(s: Strategy, policy: Policy, o: Opportunity, i: int, st: State)
    requires Valid(s, policy, o) && 1 <= i < |o.bars| && Held(st.h)
    ensures forall k :: 0 <= k < |DaySale(s, policy, o, i, st)| ==>
      DaySale(s, policy, o, i, st)[k].date == o.bars[i].date && DaySale(s, policy, o, i, st)[k].side == Sell
  {
    hide SellBlocked, StopPrice, Mark, Net, FillAt, Proceeds, Price, Shares;
  }

  /** The entry of a day whose open passed, from the state `now` that the opening left. */
  lemma NoonBuys(s: Strategy, policy: Policy, o: Opportunity, i: int, st: State, now: State)
      returns (bought: Option<Fill>)
    requires Valid(s, policy, o) && InHorizon(policy, o, i) && PassesOpen(s, policy, o, i, st)
    requires Morning(s, policy, o, i, now)
    requires now.h == st.h && now.t.batchesFilled == st.t.batchesFilled && now.t.fills == st.t.fills
    ensures bought.Some? <==> BuysOn(s, policy, o, i, st)
    ensures bought.Some? ==> Purchase(s, policy, o, i, st.h.invested, bought.value)
    ensures (i == 1 && now == Start(o)) || (i > 1 && Held(now.h))
    ensures var f := Entry(s, policy, o, i, now);
      if GoesOnAtNoon(s, policy, o, i, st) then f == Go(AtNoon(i, now, bought)) && Noon(s, policy, o, i, f.st)
      else f.Return? && f.t.fills == st.t.fills && bought.None?
  {
    MorningIsReady(s, policy, o, i, now);
    hide Entry, Morning, Noon, PassesOpen, Held, Adds, LacksContext, Purchase, BatchAdded;
    bought := EntryTrades(s, policy, o, i, now);
    EntryKeeps(s, policy, o, i, now);
    SameAdds(s, policy, o, i, st, now);
  }

  /** The orders of such a day. */
  lemma NoonOrders(s: Strategy, policy: Policy, o: Opportunity, i: int, st: State, now: State, bought: Option<Fill>)
      returns (orders: seq<Fill>)
    requires Valid(s, policy, o) && InHorizon(policy, o, i) && Ready(o, i, st)
    requires Opening(s, policy, o, i, st) == Go(now) && ((i == 1 && now == Start(o)) || (i > 1 && Held(now.h)))
    requires now.h == st.h && now.stopCause == st.stopCause && now.t.fills == st.t.fills
    requires bought.Some? ==> Purchase(s, policy, o, i, st.h.invested, bought.value)
    requires var f := Entry(s, policy, o, i, now);
      if GoesOnAtNoon(s, policy, o, i, st) then f == Go(AtNoon(i, now, bought)) && Noon(s, policy, o, i, f.st)
      else f.Return? && f.t.fills == st.t.fills && bought.None?
    ensures orders == Listed(bought)
      + (if GoesOnAtNoon(s, policy, o, i, st) && Held(AtNoon(i, st, bought).h)
         then DaySale(s, policy, o, i, AtNoon(i, st, bought)) else [])
    ensures TradeOf(Day(s, policy, o, i, st)).fills == st.t.fills + orders
    ensures forall k :: 0 <= k < |orders| ==> orders[k].date == o.bars[i].date
  {
    hide Day, Opening, Entry, Intraday, GoesOnAtNoon, Noon, DaySale, Held, Shares, Purchase, AtNoon, Marked, EndsWell,
      Valid, Ready, Start;
    DayIs(s, policy, o, i, st, now);
    SameNoon(i, st, now, bought);
    if bought.Some? { PurchaseDated(s, policy, o, i, st.h.invested, bought.value); }
    orders := Listed(bought);
    if GoesOnAtNoon(s, policy, o, i, st) {
      var noon := AtNoon(i, now, bought);
      NoonHolds(s, policy, o, i, noon);
      DayTrades(s, policy, o, i, noon);
      MarkedFills(s, policy, o, i, noon, TradeOf(Intraday(s, policy, o, i, noon)));
      DaySaleDated(s, policy, o, i, noon);
      SameDaySale(s, policy, o, i, noon, AtNoon(i, st, bought));
      orders := orders + DaySale(s, policy, o, i, noon);
    }
  }

  lemma DayIs(s: Strategy, policy: Policy, o: Opportunity, i: int, st: State, now: State)
    requires Valid(s, policy, o) && 1 <= i < |o.bars| && Ready(o, i, st) && Opening(s, policy, o, i, st) == Go(now)
    requires (i == 1 && now == Start(o)) || (i > 1 && Held(now.h))
    ensures var f := Entry(s, policy, o, i, now);
      Day(s, policy, o, i, st) == if f.Go? then Intraday(s, policy, o, i, f.st) else f
  {
    hide Opening, Entry, Intraday;
  }

  lemma PurchaseDated(s: Strategy, policy: Policy, o: Opportunity, i: int, invested: real, fill: Fill)
    requires Valid(s, policy, o) && 1 <= i < |o.bars| && Purchase(s, policy, o, i, invested, fill)
    ensures fill.date == o.bars[i].date && fill.side == Buy
  {
  }

  lemma MarkedFills(s: Strategy, policy: Policy, o: Opportunity, i: int, st: State, t: Trade)
    requires Valid(s, policy, o) && 1 <= i < |o.bars| && Held(st.h) && Marked(s, policy, o, i, st, t)
    ensures t.fills == st.t.fills + DaySale(s, policy, o, i, st)
  {
    hide DaySale, TouchesStop, ReachesTarget, Held;
  }

  lemma SameNoon(i: int, st: State, now: State, bought: Option<Fill>)
    requires now.h == st.h && now.stopCause == st.stopCause && now.t.fills == st.t.fills
    ensures AtNoon(i, now, bought).h == AtNoon(i, st, bought).h
    ensures AtNoon(i, now, bought).stopCause == AtNoon(i, st, bought).stopCause
    ensures AtNoon(i, now, bought).t.fills == st.t.fills + Listed(bought)
  {
  }

  lemma MorningIsReady(s: Strategy, policy: Policy, o: Opportunity, i: int, st: State)
    requires Morning(s, policy, o, i, st)
    ensures (i == 1 && |o.bars| >= 1 && st == Start(o)) || (i > 1 && Held(st.h))
  {
  }

  lemma NoonHolds(s: Strategy, policy: Policy, o: Opportunity, i: int, st: State)
    requires Noon(s, policy, o, i, st)
    ensures Held(st.h) && Shares(st.h.lots, i, true) <= All(st.h)
  {
    hide SharesOf, CashOf, Orders, BoughtBefore, RespectsT1, OnGrid, Shares;
  }

  lemma SameAdds(s: Strategy, policy: Policy, o: Opportunity, i: int, st: State, now: State)
    requires Valid(s, policy, o) && 1 <= i < |o.bars|
    requires now.h == st.h && now.t.batchesFilled == st.t.batchesFilled
    ensures Adds(s, policy, o, i, st) == Adds(s, policy, o, i, now)
    ensures LacksContext(policy, o, i, st) == LacksContext(policy, o, i, now)
  {
    hide Orderable, SmallGap;
  }

  lemma SameDaySale(s: Strategy, policy: Policy, o: Opportunity, i: int, st: State, st': State)
    requires Valid(s, policy, o) && 1 <= i < |o.bars| && Held(st.h)
    requires st.h == st'.h && st.stopCause == st'.stopCause
    ensures DaySale(s, policy, o, i, st) == DaySale(s, policy, o, i, st')
  {
  }

  lemma DayOrders(s: Strategy, policy: Policy, o: Opportunity, i: int, st: State)
      returns (bought: Option<Fill>, orders: seq<Fill>)
    requires Valid(s, policy, o) && InHorizon(policy, o, i) && Kept(s, policy, o, i - 1, st) && Ready(o, i, st)
    ensures OrdersOf(s, policy, o, i, st, bought, orders)
    ensures TradeOf(Day(s, policy, o, i, st)).fills == st.t.fills + orders
    ensures forall k :: 0 <= k < |orders| ==> orders[k].date == o.bars[i].date
  {
    hide Opening, Entry, Intraday, Kept, Morning, Noon, Adds, PassesOpen, DaySale, OpeningSale, LacksContext, Held,
      Purchase, AtNoon, Valid, Ready, Good;
    OpeningTrades(s, policy, o, i, st);
    OpeningKeeps(s, policy, o, i, st);
    OpeningSaleDated(s, policy, o, i, st);
    bought, orders := None, OpeningSale(s, policy, o, i, st);
    if PassesOpen(s, policy, o, i, st) {
      var now := Opening(s, policy, o, i, st).st;
      bought := NoonBuys(s, policy, o, i, st, now);
      orders := NoonOrders(s, policy, o, i, st, now, bought);
    }
  }

  // ---------- over all days ----------

  lemma {:induction false} ReachedIsKept(s: Strategy, policy: Policy, o: Opportunity, i: nat)
    requires Valid(s, policy, o) && StateAt(s, policy, o, i).Some?
    ensures 1 <= i <= |o.bars| && Kept(s, policy, o, i - 1, StateAt(s, policy, o, i).value)
  {
    hide Kept, Day, Ready;
    if i == 1 {
      StartKept(s, policy, o);
    } else {
      ReachedIsKept(s, policy, o, i - 1);
      DayKeeps(s, policy, o, i - 1, StateAt(s, policy, o, i - 1).value);
    }
  }

  /** The day is reached with shares or the first signal, inside the horizon. */
  ghost predicate DayReached(s: Strategy, policy: Policy, o: Opportunity, i: nat) {
    Valid(s, policy, o) && InHorizon(policy, o, i) && StateAt(s, policy, o, i).Some?
  }

  /** The fill is one of the orders of a reached day from the i-th on. */
  ghost predicate OrderedSince(s: Strategy, policy: Policy, o: Opportunity, i: nat, fill: Fill) {
    exists j: nat :: i <= j && DayReached(s, policy, o, j) && fill.date == o.bars[j].date
  }

  /** The fills from the `n`-th on are orders of reached days from the i-th on. */
  ghost predicate AllOrdered(s: Strategy, policy: Policy, o: Opportunity, i: nat, fills: seq<Fill>, n: nat) {
    forall k :: n <= k < |fills| ==> OrderedSince(s, policy, o, i, fills[k])
  }

  lemma OneDayMore(s: Strategy, policy: Policy, o: Opportunity, i: nat, before: seq<Fill>, orders: seq<Fill>,
      all: seq<Fill>)
    requires DayReached(s, policy, o, i) && before + orders <= all
    requires forall k :: 0 <= k < |orders| ==> orders[k].date == o.bars[i].date
    requires AllOrdered(s, policy, o, i + 1, all, |before| + |orders|)
    ensures AllOrdered(s, policy, o, i, all, |before|)
  {
    hide DayReached;
    forall k | |before| <= k < |all| ensures OrderedSince(s, policy, o, i, all[k]) {
      if k < |before| + |orders| {
        assert all[k] == (before + orders)[k] == orders[k - |before|];
      } else {
        var j := OrderDay(s, policy, o, i + 1, all[k]);
      }
    }
  }

  /** A run from the i-th day on keeps the fills so far, and every later one belongs to a reached day. */
  lemma {:induction false} RunAppends(s: Strategy, policy: Policy, o: Opportunity, i: nat, st: State)
    requires Valid(s, policy, o) && 1 <= i && Ready(o, i, st) && StateAt(s, policy, o, i) == Some(st)
    ensures st.t.fills <= Days(s, policy, o, i, st).fills
    ensures AllOrdered(s, policy, o, i, Days(s, policy, o, i, st).fills, |st.t.fills|)
    decreases |o.bars| - i
  {
    hide Day, Days, Valid, Ready, StateAt, Kept, OrderedSince, OrdersOf, DayReached;
    DaysAre(s, policy, o, i, st);
    if InHorizon(policy, o, i) {
      ReachedIsKept(s, policy, o, i);
      var bought, orders := DayOrders(s, policy, o, i, st);
      NextState(s, policy, o, i, st);
      IsReached(s, policy, o, i);
      var f := Day(s, policy, o, i, st);
      if f.Next? {
        NextIsReady(s, policy, o, i, st);
        RunAppends(s, policy, o, i + 1, f.st);
      }
      OneDayMore(s, policy, o, i, st.t.fills, orders, Days(s, policy, o, i, st).fills);
    }
  }

  lemma IsReached(s: Strategy, policy: Policy, o: Opportunity, i: nat)
    requires Valid(s, policy, o) && InHorizon(policy, o, i) && StateAt(s, policy, o, i).Some?
    ensures DayReached(s, policy, o, i)
  {
  }

  lemma NextIsReady(s: Strategy, policy: Policy, o: Opportunity, i: nat, st: State)
    requires Valid(s, policy, o) && InHorizon(policy, o, i) && Ready(o, i, st) && Day(s, policy, o, i, st).Next?
    ensures Ready(o, i + 1, Day(s, policy, o, i, st).st)
  {
    hide Day;
  }

  lemma OrderDay(s: Strategy, policy: Policy, o: Opportunity, i: nat, fill: Fill) returns (j: nat)
    requires OrderedSince(s, policy, o, i, fill)
    ensures i <= j && DayReached(s, policy, o, j) && fill.date == o.bars[j].date
  {
    j :| i <= j && DayReached(s, policy, o, j) && fill.date == o.bars[j].date;
  }

  /** The trade is the run from any reached day. */
  lemma {:induction false} RunFrom(s: Strategy, policy: Policy, o: Opportunity, i: nat)
    requires Valid(s, policy, o) && StateAt(s, policy, o, i).Some?
    ensures Simulate(s, policy, o) == Days(s, policy, o, i, StateAt(s, policy, o, i).value)
  {
    hide Day, Days;
    if i > 1 {
      RunFrom(s, policy, o, i - 1);
      DaysAre(s, policy, o, i - 1, StateAt(s, policy, o, i - 1).value);
    }
  }

  /**
   * The fills of a trade, seen from a reached day: those of the days before, the orders of the day, and those of later
   * days.
   */
  lemma FillsOfDay(s: Strategy, policy: Policy, o: Opportunity, i: nat)
      returns (bought: Option<Fill>, orders: seq<Fill>, later: seq<Fill>)
    requires DayReached(s, policy, o, i)
    ensures var st := StateAt(s, policy, o, i).value;
      && OrdersOf(s, policy, o, i, st, bought, orders)
      && Simulate(s, policy, o).fills == st.t.fills + orders + later
      && TradeOf(Day(s, policy, o, i, st)).fills == st.t.fills + orders
      && (forall k :: 0 <= k < |st.t.fills| ==> st.t.fills[k].date < o.bars[i].date)
      && (forall k :: 0 <= k < |orders| ==> orders[k].date == o.bars[i].date)
      && (forall k :: 0 <= k < |later| ==> later[k].date > o.bars[i].date)
  {
    hide Day, Days, Simulate, Ready, StateAt, Kept, OrderedSince, OrdersOf;
    var st := StateAt(s, policy, o, i).value;
    ReachedIsKept(s, policy, o, i);
    RunFrom(s, policy, o, i);
    bought, orders := DayOrders(s, policy, o, i, st);
    DaysAre(s, policy, o, i, st);
    NextState(s, policy, o, i, st);
    FilledBefore(s, policy, o, i, st);
    var all := Simulate(s, policy, o).fills;
    var f := Day(s, policy, o, i, st);
    later := [];
    if f.Next? {
      NextIsReady(s, policy, o, i, st);
      RunAppends(s, policy, o, i + 1, f.st);
      later := all[|st.t.fills| + |orders|..];
      forall k | 0 <= k < |later| ensures later[k].date > o.bars[i].date {
        assert later[k] == all[|st.t.fills| + |orders| + k];
        var j := OrderDay(s, policy, o, i + 1, later[k]);
        DatesAscend(o.bars, i, j);
      }
    }
  }

  lemma FilledBefore(s: Strategy, policy: Policy, o: Opportunity, i: nat, st: State)
    requires Valid(s, policy, o) && InHorizon(policy, o, i) && Kept(s, policy, o, i - 1, st)
    ensures forall k :: 0 <= k < |st.t.fills| ==> st.t.fills[k].date < o.bars[i].date
  {
    hide SharesOf, CashOf, Orders, BoughtBefore, RespectsT1, OnGrid, Shares;
    DatesAscend(o.bars, i - 1, i);
  }

  // ---------- when a trade buys ----------

  ghost predicate BoughtOn(fills: seq<Fill>, date: int) {
    exists k :: 0 <= k < |fills| && fills[k].side == Buy && fills[k].date == date
  }

  /** A fill dated on the day is one of the orders of the day. */
  lemma OnDate(before: seq<Fill>, orders: seq<Fill>, later: seq<Fill>, date: int, k: nat)
    requires k < |before + orders + later|
    requires forall j :: 0 <= j < |before| ==> before[j].date < date
    requires forall j :: 0 <= j < |later| ==> later[j].date > date
    ensures (before + orders + later)[k].date == date ==>
      |before| <= k < |before| + |orders| && (before + orders + later)[k] == orders[k - |before|]
  {
    if k >= |before| + |orders| {
      assert (before + orders + later)[k] == later[k - |before| - |orders|];
    }
  }

  lemma OrderedFill(before: seq<Fill>, orders: seq<Fill>, later: seq<Fill>, k: nat)
    requires k < |orders|
    ensures |before| + k < |before + orders + later| && (before + orders + later)[|before| + k] == orders[k]
  {
  }

  /** On a reached day there is a purchase exactly when the day asks for one. */
  lemma BuysOnIff(s: Strategy, policy: Policy, o: Opportunity, i: nat)
    requires DayReached(s, policy, o, i)
    ensures BoughtOn(Simulate(s, policy, o).fills, o.bars[i].date)
      <==> BuysOn(s, policy, o, i, StateAt(s, policy, o, i).value)
  {
    hide Simulate, BuysOn, OrdersOf, DayReached, StateAt;
    ReachedMeans(s, policy, o, i);
    var st := StateAt(s, policy, o, i).value;
    var bought, orders, later := FillsOfDay(s, policy, o, i);
    OrdersBuy(s, policy, o, i, st, bought, orders);
    var all := st.t.fills + orders + later;
    if BuysOn(s, policy, o, i, st) {
      var k :| 0 <= k < |orders| && orders[k].side == Buy;
      OrderedFill(st.t.fills, orders, later, k);
      assert all[|st.t.fills| + k].side == Buy;
    }
    if k :| 0 <= k < |all| && all[k].side == Buy && all[k].date == o.bars[i].date {
      OnDate(st.t.fills, orders, later, o.bars[i].date, k);
    }
  }

  lemma ReachedMeans(s: Strategy, policy: Policy, o: Opportunity, i: nat)
    requires DayReached(s, policy, o, i)
    ensures Valid(s, policy, o) && 1 <= i < |o.bars| && i <= policy.horizon + 1 && StateAt(s, policy, o, i).Some?
  {
  }

  /** Of the orders of a day the purchase is the only one that buys. */
  lemma OrdersBuy(s: Strategy, policy: Policy, o: Opportunity, i: int, st: State, bought: Option<Fill>,
      orders: seq<Fill>)
    requires Valid(s, policy, o) && 1 <= i < |o.bars| && OrdersOf(s, policy, o, i, st, bought, orders)
    ensures (exists k :: 0 <= k < |orders| && orders[k].side == Buy) <==> BuysOn(s, policy, o, i, st)
    ensures forall k :: 0 <= k < |orders| && orders[k].side == Buy ==>
      BuysOn(s, policy, o, i, st) && Purchase(s, policy, o, i, st.h.invested, orders[k])
  {
    hide BuysOn, OpeningSale, DaySale, Held, Purchase, GoesOnAtNoon, AtNoon, Valid;
    OpeningSaleDated(s, policy, o, i, st);
    if Held(AtNoon(i, st, bought).h) { DaySaleDated(s, policy, o, i, AtNoon(i, st, bought)); }
    var sale := OpeningSale(s, policy, o, i, st);
    if bought.Some? {
      PurchaseDated(s, policy, o, i, st.h.invested, bought.value);
      assert orders[|sale|] == bought.value;
    }
  }

  /** Every fill belongs to a reached day, and a purchase is the largest order that fits on a day that asks for one. */
  lemma EveryPurchase(s: Strategy, policy: Policy, o: Opportunity, k: nat) returns (i: nat)
    requires Valid(s, policy, o) && k < |Simulate(s, policy, o).fills|
    ensures DayReached(s, policy, o, i) && Simulate(s, policy, o).fills[k].date == o.bars[i].date
    ensures var st := StateAt(s, policy, o, i).value;
      Simulate(s, policy, o).fills[k].side == Buy ==>
        && BuysOn(s, policy, o, i, st)
        && Purchase(s, policy, o, i, st.h.invested, Simulate(s, policy, o).fills[k])
  {
    hide Simulate, BuysOn, OrdersOf, Purchase, Valid, Day, StateAt, DayReached, OrderedSince, Start;
    StartReady(s, policy, o);
    RunFrom(s, policy, o, 1);
    RunAppends(s, policy, o, 1, Start(o));
    StartEmpty(o);
    i := OrderDay(s, policy, o, 1, Simulate(s, policy, o).fills[k]);
    ReachedMeans(s, policy, o, i);
    var st := StateAt(s, policy, o, i).value;
    var bought, orders, later := FillsOfDay(s, policy, o, i);
    OrdersBuy(s, policy, o, i, st, bought, orders);
    OnDate(st.t.fills, orders, later, o.bars[i].date, k);
  }

  lemma StartEmpty(o: Opportunity)
    requires |o.bars| >= 1
    ensures Start(o).t.fills == []
  {
  }

  lemma StartReady(s: Strategy, policy: Policy, o: Opportunity)
    requires Valid(s, policy, o)
    ensures Ready(o, 1, Start(o)) && StateAt(s, policy, o, 1) == Some(Start(o))
  {
  }

  /**
   * A batch is added only after a signal: every purchase but the first is dated on a day after the first and before the
   * last of the horizon whose day before showed an event, and which is traded, at more than one price, without a large
   * gap.
   */
  lemma AdditionsFollowSignals(s: Strategy, policy: Policy, o: Opportunity, k: nat) returns (i: nat)
    requires Valid(s, policy, o) && 0 < k < |Simulate(s, policy, o).fills|
    requires Simulate(s, policy, o).fills[k].side == Buy
    ensures 1 < i < policy.horizon + 1 && i < |o.bars| && Simulate(s, policy, o).fills[k].date == o.bars[i].date
    ensures o.events[i - 1] && o.bars[i].volume > 0.0 && o.bars[i].high - o.bars[i].low >= 0.005
    ensures -s.maxEntryGapPct <= (o.bars[i].open / o.bars[i - 1].close - 1.0) * 100.0 <= s.maxEntryGapPct
    ensures i !in o.invalid && i !in o.unknownAdds
  {
    i := EveryPurchase(s, policy, o, k);
    FirstIsFirst(s, policy, o, k, i);
  }

  /** Only the first fill is one of the first day. */
  lemma FirstIsFirst(s: Strategy, policy: Policy, o: Opportunity, k: nat, i: nat)
    requires DayReached(s, policy, o, i) && k < |Simulate(s, policy, o).fills|
    requires Simulate(s, policy, o).fills[k].side == Buy && Simulate(s, policy, o).fills[k].date == o.bars[i].date
    ensures i == 1 ==> k == 0
  {
    hide Simulate, BuysOn, OrdersOf, DayReached, Purchase;
    ReachedMeans(s, policy, o, i);
    if i == 1 {
      StartReady(s, policy, o);
      var bought, orders, later := FillsOfDay(s, policy, o, i);
      FirstDayOrders(s, policy, o, bought, orders);
      OnDate([], orders, later, o.bars[i].date, k);
      assert [] + orders + later == Simulate(s, policy, o).fills;
    }
  }

  /** On the first day nothing can be sold yet, so there is one order at most. */
  lemma FirstDayOrders(s: Strategy, policy: Policy, o: Opportunity, bought: Option<Fill>, orders: seq<Fill>)
    requires Valid(s, policy, o) && |o.bars| > 1 && OrdersOf(s, policy, o, 1, Start(o), bought, orders)
    ensures |orders| <= 1
  {
    hide BuysOn, Purchase, GoesOnAtNoon, DaySale, Valid;
    NothingAtOpen(s, policy, o);
    if bought.Some? && Held(AtNoon(1, Start(o), bought).h) {
      FirstDaySale(s, policy, o, bought.value);
    }
  }

  lemma NothingAtOpen(s: Strategy, policy: Policy, o: Opportunity)
    requires Valid(s, policy, o) && |o.bars| > 1
    ensures OpeningSale(s, policy, o, 1, Start(o)) == [] && !Held(Start(o).h)
  {
    hide SellBlocked, StopPrice, Net;
  }

  lemma FirstDaySale(s: Strategy, policy: Policy, o: Opportunity, fill: Fill)
    requires Valid(s, policy, o) && |o.bars| > 1 && Held(BatchAdded(Start(o), 1, fill).h)
    ensures DaySale(s, policy, o, 1, BatchAdded(Start(o), 1, fill)) == []
  {
    hide SellBlocked, StopPrice, Net, Mark, Price, FillAt;
    var lots := BatchAdded(Start(o), 1, fill).h.lots;
    assert lots == [Lot(fill.shares, 1)];
    assert lots[..0] == [];
    assert Shares(lots, 1, true) == 0;
  }

  // ---------- a trade that never buys ----------

  /** Nothing but the opportunity and the status is reported. */
  ghost predicate Blank(o: Opportunity, t: Trade) {
    && t.id == o.id && t.code == o.code && t.name == o.name && t.split == o.split
    && |o.bars| >= 1 && t.signalDate == o.bars[0].date
    && t.fills == [] && t.entryDate == None && t.exitDate == None && t.stopTriggerDate == None
    && t.netPct == t.invested == t.entryCloseNetPct == 0.0
    && t.batchesFilled == t.holdingDays == t.targetDay == 0
    && !t.targetHit && !t.stopTriggered && !t.ambiguous && !t.blockedByT1 && !t.targetBlockedT1 && !t.stopExceeded
  }

  /**
   * A trade whose first order is not filled is over: it reports nothing, and its status says that it was skipped, that
   * the first day could not be traded, or that it is not known whether the signal still stood.
   */
  lemma UnfilledIsBlank(s: Strategy, policy: Policy, o: Opportunity)
    requires Valid(s, policy, o)
    requires InHorizon(policy, o, 1) ==> !BuysOn(s, policy, o, 1, Start(o))
    ensures var t := Simulate(s, policy, o);
      && Blank(o, t)
      && t.status == if !InHorizon(policy, o, 1) then EntrySkipped
           else if 1 in o.invalid then Invalid(o.invalid[1])
           else if 1 in o.unknownAdds then MissingAddContext else EntrySkipped
  {
    hide Opening, Entry, Intraday, BuysOn, Adds, Kept;
    if InHorizon(policy, o, 1) {
      StartKept(s, policy, o);
      FirstOpening(s, policy, o);
      if 1 !in o.invalid {
        var fill := EntryTrades(s, policy, o, 1, Start(o));
        FirstAdds(s, policy, o);
      }
    }
  }

  lemma FirstOpening(s: Strategy, policy: Policy, o: Opportunity)
    requires Valid(s, policy, o) && |o.bars| > 1
    ensures Opening(s, policy, o, 1, Start(o))
      == if 1 in o.invalid then Return(Start(o).t.(status := Invalid(o.invalid[1]))) else Go(Start(o))
  {
    hide SellBlocked, StopPrice, Mark, Net, FillAt;
  }

  lemma FirstAdds(s: Strategy, policy: Policy, o: Opportunity)
    requires Valid(s, policy, o) && |o.bars| > 1 && 1 !in o.invalid
    ensures BuysOn(s, policy, o, 1, Start(o)) <==> Adds(s, policy, o, 1, Start(o))
    ensures LacksContext(policy, o, 1, Start(o)) <==> 1 in o.unknownAdds
  {
    hide Adds, SellBlocked, StopPrice, Net;
  }
}
