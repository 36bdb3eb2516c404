/** What the fills of a simulated trade conserve, and what a resolved trade reports. */
module Ledger {
  import opened Money
  import opened Market
  import opened Trading
  import opened Simulator

  // ---------- reading a list of fills ----------

  ghost function SharesOf(fills: seq<Fill>, side: Side): nat {
    if fills == [] then 0 else
      var last := fills[|fills| - 1];
      SharesOf(fills[..|fills| - 1], side) + (if last.side == side then last.shares else 0)
  }

  ghost function CashOf(fills: seq<Fill>, side: Side): real {
    if fills == [] then 0.0 else
      var last := fills[|fills| - 1];
      CashOf(fills[..|fills| - 1], side) + (if last.side == side then last.cash else 0.0)
  }

  ghost function Orders(fills: seq<Fill>, side: Side): nat {
    if fills == [] then 0 else
      Orders(fills[..|fills| - 1], side) + (if fills[|fills| - 1].side == side then 1 else 0)
  }

  ghost function BoughtBefore(fills: seq<Fill>, date: int): nat {
    if fills == [] then 0 else
      var last := fills[|fills| - 1];
      BoughtBefore(fills[..|fills| - 1], date) + (if last.side == Buy && last.date < date then last.shares else 0)
  }

  /** Every sale sells exactly what was bought on earlier days and not yet sold: T+1, and no short sale. */
  ghost predicate RespectsT1(fills: seq<Fill>) {
    fills == [] ||
    var rest, last := fills[..|fills| - 1], fills[|fills| - 1];
    RespectsT1(rest) &&
    (last.side == Sell ==> 0 < last.shares && last.shares + SharesOf(rest, Sell) == BoughtBefore(rest, last.date))
  }

  ghost predicate BuysFirst(fills: seq<Fill>) {
    forall j, k :: 0 <= j < k < |fills| && fills[j].side == Sell ==> fills[k].side == Sell
  }

  ghost predicate NoneAfter(fills: seq<Fill>, date: int) {
    forall k :: 0 <= k < |fills| ==> fills[k].date <= date
  }

  ghost predicate NoBuyAfter(fills: seq<Fill>, date: int) {
    forall k :: 0 <= k < |fills| && fills[k].side == Buy ==> fills[k].date <= date
  }

  lemma Appended(fills: seq<Fill>, f: Fill, date: int)
    ensures forall side ::
              SharesOf(fills + [f], side) == SharesOf(fills, side) + (if f.side == side then f.shares else 0)
    ensures forall side :: CashOf(fills + [f], side) == CashOf(fills, side) + (if f.side == side then f.cash else 0.0)
    ensures forall side :: Orders(fills + [f], side) == Orders(fills, side) + (if f.side == side then 1 else 0)
    ensures BoughtBefore(fills + [f], date)
      == BoughtBefore(fills, date) + (if f.side == Buy && f.date < date then f.shares else 0)
    ensures RespectsT1(fills + [f]) ==
            (RespectsT1(fills) &&
             (f.side == Sell ==> 0 < f.shares && f.shares + SharesOf(fills, Sell) == BoughtBefore(fills, f.date)))
  {
    assert (fills + [f])[..|fills|] == fills;
  }

  lemma {:induction false} AllBoughtBefore(fills: seq<Fill>, date: int)
    requires forall k :: 0 <= k < |fills| ==> fills[k].date < date
    ensures BoughtBefore(fills, date) == SharesOf(fills, Buy)
  {
    if fills != [] {
      AllBoughtBefore(fills[..|fills| - 1], date);
    }
  }

  // ---------- the invariant of the days ----------

  /** The fills up to and including day `d` account for the position `h`. */
  ghost predicate Accounted(s: Strategy, policy: Policy, o: Opportunity, d: int, h: Holding, t: Trade) {
    && 0 <= d < |o.bars|
    && 0.0 <= h.invested == CashOf(t.fills, Buy) <= s.tradeCash + PRICE_SLACK
    && (h.invested > 0.0 ==> SharesOf(t.fills, Buy) >= 100)
    && 0.01 * SharesOf(t.fills, Buy) as real <= h.invested
    && h.realized == CashOf(t.fills, Sell)
    && All(h) + SharesOf(t.fills, Sell) == SharesOf(t.fills, Buy)
    && (forall k :: 0 <= k < |h.lots| ==> h.lots[k].bought <= d)
    && (All(h) == 0 || All(h) >= 100)
    && (Shares(h.lots, d, true) == All(h) || All(h) >= Shares(h.lots, d, true) + 100)
    && Shares(h.lots, d, true) + SharesOf(t.fills, Sell) == BoughtBefore(t.fills, o.bars[d].date)
    && NoneAfter(t.fills, o.bars[d].date)
    && RespectsT1(t.fills)
    && BuysFirst(t.fills)
    && t.batchesFilled == Orders(t.fills, Buy) <= policy.batches
  }

  /** The reported fields while the trade is still running, on or after day `d`. */
  ghost predicate Running(policy: Policy, o: Opportunity, d: int, st: State) {
    && 0 <= d < |o.bars|
    && !st.t.targetHit && st.t.targetDay == 0 && st.t.exitDate == None && !st.t.stopExceeded
    && st.t.id == o.id && st.t.code == o.code && st.t.signalDate == o.bars[0].date && st.t.split == o.split
    && (if st.t.stopTriggered
        then
          && policy.stop > 0.0
          && (st.stopCause == Stop || st.stopCause == StopGap)
          && st.t.stopTriggerDate.Some? && st.t.stopTriggerDate.value <= o.bars[d].date
          && NoBuyAfter(st.t.fills, st.t.stopTriggerDate.value)
        else
          st.stopCause == Stop && st.t.stopTriggerDate == None && Orders(st.t.fills, Sell) == 0 && st.h.realized == 0.0)
  }

  ghost predicate Entered(st: State) {
    Held(st.h) && st.t.entryDate.Some? && st.t.status == Unresolved && st.t.invested == st.h.invested
  }

  /** Everything known at the end of day `d`. */
  ghost predicate Kept(s: Strategy, policy: Policy, o: Opportunity, d: int, st: State) {
    && Accounted(s, policy, o, d, st.h, st.t)
    && Running(policy, o, d, st)
    && (if d == 0 then |o.bars| >= 1 && st == Start(o) else Entered(st))
  }

  /** Everything known on day `i` after the opening decisions: nothing is locked, and the open was above the stop. */
  ghost predicate Morning(s: Strategy, policy: Policy, o: Opportunity, i: int, st: State) {
    && 1 <= i
    && Accounted(s, policy, o, i, st.h, st.t)
    && Running(policy, o, i, st) && !st.t.stopTriggered
    && Shares(st.h.lots, i, true) == All(st.h)
    && (if i == 1 then |o.bars| >= 1 && st == Start(o) else Entered(st) && AboveStop(s, policy, o, i, st.h))
  }

  ghost predicate AboveStop(s: Strategy, policy: Policy, o: Opportunity, i: int, h: Holding) {
    policy.stop > 0.0 && s.Valid() && Held(h) && 0 <= i < |o.bars| && 0.0 < o.bars[i].open
    ==> StopPrice(s, h, policy.stop, o.bars[i].open) < o.bars[i].open
  }

  /**
    Everything known on day `i` after the entry decision: either
    today's lot is locked, or the open was above the stop.
  */
  ghost predicate Noon(s: Strategy, policy: Policy, o: Opportunity, i: int, st: State) {
    && 1 <= i
    && Accounted(s, policy, o, i, st.h, st.t)
    && Running(policy, o, i, st) && !st.t.stopTriggered
    && Entered(st)
    && (Shares(st.h.lots, i, true) == All(st.h) ==> i > 1 && AboveStop(s, policy, o, i, st.h))
  }

  predicate Resolved(t: Trade) {
    t.status.Exit?
  }

  /** What every returned trade's fills satisfy. */
  ghost predicate Balanced(s: Strategy, policy: Policy, o: Opportunity, t: Trade) {
    && RespectsT1(t.fills)
    && BuysFirst(t.fills)
    && SharesOf(t.fills, Sell) <= SharesOf(t.fills, Buy)
    && 0.01 * SharesOf(t.fills, Buy) as real <= CashOf(t.fills, Buy) <= s.tradeCash + PRICE_SLACK
    && t.batchesFilled == Orders(t.fills, Buy) <= policy.batches
    && (t.entryDate.Some? ==> t.invested == CashOf(t.fills, Buy))
    && (t.stopTriggered ==> t.stopTriggerDate.Some? && NoBuyAfter(t.fills, t.stopTriggerDate.value))
    && t.id == o.id && t.code == o.code && |o.bars| >= 1 && t.signalDate == o.bars[0].date && t.split == o.split
  }

  /** What a resolved trade reports; an unresolved one reports no exit. */
  ghost predicate Reported(policy: Policy, o: Opportunity, t: Trade) {
    if Resolved(t) then
      && SharesOf(t.fills, Buy) == SharesOf(t.fills, Sell) >= 100
      && t.entryDate.Some? && CashOf(t.fills, Buy) > 0.0
      && t.netPct == (CashOf(t.fills, Sell) / CashOf(t.fills, Buy) - 1.0) * 100.0
      && 1 <= t.holdingDays <= policy.horizon && t.holdingDays + 1 < |o.bars|
      && t.exitDate == Some(o.bars[t.holdingDays + 1].date)
      && (t.targetHit <==> t.netPct >= policy.target - NET_SLACK)
      && (t.targetHit ==> t.targetDay == t.holdingDays)
      && (t.stopExceeded <==> policy.stop > 0.0 && t.netPct <= -policy.stop + NET_SLACK)
      && (t.status.cause == Stop || t.status.cause == StopGap || t.status.cause == Target || t.status.cause == Timeout)
      && (t.stopTriggered <==> t.status.cause == Stop || t.status.cause == StopGap)
    else
      t.exitDate == None && !t.targetHit && !t.stopExceeded
  }

  ghost predicate Good(s: Strategy, policy: Policy, o: Opportunity, t: Trade) {
    Balanced(s, policy, o, t) && Reported(policy, o, t)
  }

  // ---------- one step at a time ----------

  lemma {:induction false} StartKept(s: Strategy, policy: Policy, o: Opportunity)
    requires Valid(s, policy, o)
    ensures Kept(s, policy, o, 0, Start(o))
  {
  }

  /** Nothing is bought or sold overnight, and everything becomes sellable. */
  lemma Overnight(s: Strategy, policy: Policy, o: Opportunity, d: int, h: Holding, t: Trade)
    requires Valid(s, policy, o) && Accounted(s, policy, o, d, h, t) && d + 1 < |o.bars|
    ensures Accounted(s, policy, o, d + 1, h, t)
    ensures Shares(h.lots, d + 1, true) == All(h)
  {
    AllSellable(h.lots, d + 1);
    AllBoughtBefore(t.fills, o.bars[d + 1].date);
  }

  lemma BuyKeeps(s: Strategy, policy: Policy, o: Opportunity, d: int, st: State, budget: real)
    requires Valid(s, policy, o) && Accounted(s, policy, o, d, st.h, st.t)
    requires budget <= s.tradeCash - st.h.invested && st.t.batchesFilled < policy.batches
    requires Orders(st.t.fills, Sell) == 0
    requires o.bars[d].open >= 0.01 && Bought(s, st.h, o.code, o.bars[d], d, budget).Some?
    requires Shares(st.h.lots, d, true) == All(st.h)
    ensures var (h, fill) := Bought(s, st.h, o.code, o.bars[d], d, budget).value;
            var st' := Filled(st, h, fill);
            && Accounted(s, policy, o, d, st'.h, st'.t) && Held(st'.h)
            && Orders(st'.t.fills, Sell) == 0
            && Shares(st'.h.lots, d, true) < All(st'.h)
  {
    hide Bought;
    BoughtAdds(s, st.h, o.code, o.bars[d], d, budget);
    var (h, fill) := Bought(s, st.h, o.code, o.bars[d], d, budget).value;
    AddedFill(s, policy, o, d, st, h, fill);
  }

  lemma AddedFill(s: Strategy, policy: Policy, o: Opportunity, d: int, st: State, h: Holding, fill: Fill)
    requires Accounted(s, policy, o, d, st.h, st.t)
    requires Orders(st.t.fills, Sell) == 0 && st.t.batchesFilled < policy.batches
    requires Shares(st.h.lots, d, true) == All(st.h)
    requires h == Holding(st.h.lots + [Lot(fill.shares, d)], st.h.invested + fill.cash, st.h.realized)
    requires fill.date == o.bars[d].date && fill.side == Buy && fill.shares >= 100
      && fill.cash >= 0.01 * fill.shares as real
    requires h.invested <= s.tradeCash + PRICE_SLACK && All(h) == All(st.h) + fill.shares
    ensures var st' := Filled(st, h, fill);
            && Accounted(s, policy, o, d, st'.h, st'.t) && Held(st'.h)
            && Orders(st'.t.fills, Sell) == 0
            && Shares(st'.h.lots, d, true) < All(st'.h)
  {
    hide Shares, SharesOf, CashOf, Orders, BoughtBefore, RespectsT1, OnGrid;
    Appended(st.t.fills, fill, o.bars[d].date);
    SharesAppend(st.h.lots, Lot(fill.shares, d), d, true);
    NoSellOrders(st.t.fills);
  }

  lemma {:induction false} NoSellOrders(fills: seq<Fill>)
    requires Orders(fills, Sell) == 0
    ensures forall k :: 0 <= k < |fills| ==> fills[k].side == Buy
  {
    if fills != [] {
      NoSellOrders(fills[..|fills| - 1]);
    }
  }

  lemma SaleKeeps(s: Strategy, policy: Policy, o: Opportunity, d: int, st: State, price: real, cause: Cause)
    requires Valid(s, policy, o) && Accounted(s, policy, o, d, st.h, st.t) && Shares(st.h.lots, d, true) > 0
    ensures var st' := SellAll(s, st, o.bars[d], d, price, cause);
            && Accounted(s, policy, o, d, st'.h, st'.t)
            && st'.h.invested == st.h.invested
            && All(st'.h) == All(st.h) - Shares(st.h.lots, d, true)
  {
    hide Proceeds, OnGrid, SharesOf, CashOf, Orders, BoughtBefore, RespectsT1;
    var fill := Sold(s, st.h, o.bars[d], d, price, cause).1;
    Appended(st.t.fills, fill, o.bars[d].date);
    SharesSold(st.h.lots, d);
  }

  /** A finished trade sold everything; its net return is cash out over cash in. */
  lemma FinishGood(s: Strategy, policy: Policy, o: Opportunity, i: int, h: Holding, t: Trade, cause: Cause)
    requires Valid(s, policy, o) && Accounted(s, policy, o, i, h, t) && 2 <= i <= policy.horizon + 1
    requires h.invested > 0.0 && All(h) == 0
    requires t.entryDate.Some? && t.invested == h.invested
    requires t.id == o.id && t.code == o.code && t.signalDate == o.bars[0].date && t.split == o.split
    requires t.stopTriggered ==> t.stopTriggerDate.Some? && NoBuyAfter(t.fills, t.stopTriggerDate.value)
    requires cause == Stop || cause == StopGap || cause == Target || cause == Timeout
    requires t.stopTriggered <==> cause == Stop || cause == StopGap
    ensures Good(s, policy, o, Finish(s, policy, h, t, o.bars[i], i, cause))
    ensures Finish(s, policy, h, t, o.bars[i], i, cause).netPct == (h.realized / h.invested - 1.0) * 100.0
  {
    hide SharesOf, CashOf, Orders, BoughtBefore, RespectsT1, OnGrid;
  }

  lemma {:induction false} OpeningKeeps(s: Strategy, policy: Policy, o: Opportunity, i: int, st: State)
    requires Valid(s, policy, o) && 1 <= i < |o.bars| && i <= policy.horizon + 1
    requires Kept(s, policy, o, i - 1, st) && Ready(o, i, st)
    ensures match Opening(s, policy, o, i, st)
            case Return(t) => Good(s, policy, o, t)
            case Next(st') => Kept(s, policy, o, i, st')
            case Go(st') => Morning(s, policy, o, i, st')
  {
    hide SharesOf, CashOf, Orders, BoughtBefore, RespectsT1, OnGrid, SellBlocked, StopPrice, Mark, Net, Finish, Sold;
    Overnight(s, policy, o, i - 1, st.h, st.t);
    var b := o.bars[i];
    if i !in o.invalid && All(st.h) > 0 {
      var t := st.t.(holdingDays := i - 1);
      var gapped := !t.stopTriggered && policy.stop > 0.0 && b.open <= StopPrice(s, st.h, policy.stop, b.open);
      var st1 := if gapped
                 then State(st.h, t.(stopTriggered := true, stopTriggerDate := Some(b.date)), StopGap)
                 else st.(t := t);
      if st1.t.stopTriggered {
        StopSale(s, policy, o, i, st1, FillAt(s, b, b.open));
      } else {
        LastSale(s, policy, o, i, st1.(t := st1.t.(targetHit := true, targetDay := i - 1)), FillAt(s, b, b.open),
          Target);
      }
    }
  }

  lemma StopSale(s: Strategy, policy: Policy, o: Opportunity, i: int, st: State, price: real)
    requires Valid(s, policy, o) && 1 <= i < |o.bars| && i <= policy.horizon + 1
    requires Accounted(s, policy, o, i, st.h, st.t) && Running(policy, o, i, st) && Entered(st) && st.t.stopTriggered
    requires Shares(st.h.lots, i, true) == All(st.h) ==> i > 1
    ensures var st' := SellAll(s, st, o.bars[i], i, price, st.stopCause);
            Shares(st.h.lots, i, true) > 0 ==>
              if All(st'.h) == 0 then Good(s, policy, o, Finish(s, policy, st'.h, st'.t, o.bars[i], i, st'.stopCause))
              else Kept(s, policy, o, i, st')
  {
    hide SharesOf, CashOf, Orders, BoughtBefore, RespectsT1, OnGrid, Mark, Net, Finish;
    if Shares(st.h.lots, i, true) > 0 {
      SaleKeeps(s, policy, o, i, st, price, st.stopCause);
      var st' := SellAll(s, st, o.bars[i], i, price, st.stopCause);
      if All(st'.h) == 0 {
        FinishGood(s, policy, o, i, st'.h, st'.t, st'.stopCause);
      }
    }
  }

  /** A target or timeout sale finishes the trade. */
  lemma LastSale(s: Strategy, policy: Policy, o: Opportunity, i: int, st: State, price: real, cause: Cause)
    requires Valid(s, policy, o) && 2 <= i < |o.bars| && i <= policy.horizon + 1
    requires Accounted(s, policy, o, i, st.h, st.t) && Entered(st) && !st.t.stopTriggered
    requires st.t.id == o.id && st.t.code == o.code && st.t.signalDate == o.bars[0].date && st.t.split == o.split
    requires Shares(st.h.lots, i, true) == All(st.h) && (cause == Target || cause == Timeout)
    ensures var st' := SellAll(s, st, o.bars[i], i, price, cause);
            All(st'.h) == 0 && st'.h.invested > 0.0
              && Good(s, policy, o, Finish(s, policy, st'.h, st'.t, o.bars[i], i, cause))
  {
    hide SharesOf, CashOf, Orders, BoughtBefore, RespectsT1, OnGrid, Mark, Net, Finish;
    SaleKeeps(s, policy, o, i, st, price, cause);
    var st' := SellAll(s, st, o.bars[i], i, price, cause);
    FinishGood(s, policy, o, i, st'.h, st'.t, cause);
  }

  lemma {:induction false} EntryKeeps(s: Strategy, policy: Policy, o: Opportunity, i: int, st: State)
    requires Valid(s, policy, o) && 1 <= i < |o.bars| && i <= policy.horizon + 1
    requires Morning(s, policy, o, i, st)
    ensures match Entry(s, policy, o, i, st)
            case Return(t) => Good(s, policy, o, t)
            case Next(_) => true
            case Go(st') => Noon(s, policy, o, i, st')
  {
    hide Accounted, Good, OnGrid, Bought, Noon, AboveStop, Filled, Budget, GapPct, Orders;
    var b := o.bars[i];
    AtLeastACent(b.open);
    var budget := Budget(s, policy, st.h.invested);
    StillRunning(s, policy, o, i, st, st.t);
    StillRunning(s, policy, o, i, st, st.t.(status := MissingAddContext));
    if i > 1 { NoEntry(s, policy, o, i, st); }
    if st.t.batchesFilled < policy.batches && Bought(s, st.h, o.code, b, i, budget).Some? {
      EntryOrder(s, policy, o, i, st, budget);
    }
  }

  lemma NoEntry(s: Strategy, policy: Policy, o: Opportunity, i: int, st: State)
    requires Morning(s, policy, o, i, st) && i > 1
    ensures Noon(s, policy, o, i, st)
  {
  }

  lemma EntryOrder(s: Strategy, policy: Policy, o: Opportunity, i: int, st: State, budget: real)
    requires Valid(s, policy, o) && 1 <= i < |o.bars| && Morning(s, policy, o, i, st)
    requires budget <= s.tradeCash - st.h.invested && st.t.batchesFilled < policy.batches
    requires o.bars[i].open >= 0.01 && Bought(s, st.h, o.code, o.bars[i], i, budget).Some?
    ensures var (h, fill) := Bought(s, st.h, o.code, o.bars[i], i, budget).value;
            Noon(s, policy, o, i, Filled(st, h, fill))
  {
    hide Accounted, Bought, OnGrid, Orders;
    AccountsFor(s, policy, o, i, st.h, st.t);
    BuyKeeps(s, policy, o, i, st, budget);
    BoughtAdds(s, st.h, o.code, o.bars[i], i, budget);
  }

  lemma AccountsFor(s: Strategy, policy: Policy, o: Opportunity, d: int, h: Holding, t: Trade)
    requires Accounted(s, policy, o, d, h, t)
    ensures 0 <= d < |o.bars| && NoneAfter(t.fills, o.bars[d].date)
  {
  }

  /** A trade returned without an exit is as balanced as the position it leaves open. */
  lemma StillRunning(s: Strategy, policy: Policy, o: Opportunity, d: int, st: State, t: Trade)
    requires Accounted(s, policy, o, d, st.h, st.t) && Running(policy, o, d, st)
    requires t == st.t.(status := t.status) && !t.status.Exit?
    requires st == Start(o) || Entered(st)
    ensures Good(s, policy, o, t)
  {
  }

  lemma IntradayKeeps(s: Strategy, policy: Policy, o: Opportunity, i: int, st: State)
    requires Valid(s, policy, o) && 1 <= i < |o.bars| && i <= policy.horizon + 1
    requires Noon(s, policy, o, i, st)
    ensures match Intraday(s, policy, o, i, st)
            case Return(t) => Good(s, policy, o, t)
            case Next(st') => Kept(s, policy, o, i, st')
            case Go(_) => true
  {
    hide Intraday, Good, Kept, Accounted, Running, StopPrice, AboveStop;
    if policy.stop > 0.0 && o.bars[i].low <= StopPrice(s, st.h, policy.stop, o.bars[i].open) {
      StoppedKeeps(s, policy, o, i, st);
    } else {
      UnstoppedKeeps(s, policy, o, i, st);
    }
  }

  /** A day that touches the stop. */
  lemma StoppedKeeps(s: Strategy, policy: Policy, o: Opportunity, i: int, st: State)
    requires Valid(s, policy, o) && 1 <= i < |o.bars| && i <= policy.horizon + 1
    requires Noon(s, policy, o, i, st)
    requires policy.stop > 0.0 && o.bars[i].low <= StopPrice(s, st.h, policy.stop, o.bars[i].open)
    ensures match Intraday(s, policy, o, i, st)
            case Return(t) => Good(s, policy, o, t)
            case Next(st') => Kept(s, policy, o, i, st')
            case Go(_) => true
  {
    hide SharesOf, CashOf, Orders, BoughtBefore, RespectsT1, OnGrid, SellBlocked, StopPrice, Mark, Net, Finish, Sold;
    hide FillAt;
    var b := o.bars[i];
    var t0 := if i == 1 then st.t.(entryCloseNetPct := Net(s, st.h, Mark(s, b.close))) else st.t;
    var all, available := All(st.h), Shares(st.h.lots, i, true);
    var highHit := Net(s, st.h, Mark(s, b.high)) >= policy.target - NET_SLACK;
    var trigger := StopPrice(s, st.h, policy.stop, b.open);
    var st1 := st.(t := if highHit && available < all then t0.(targetBlockedT1 := true) else t0);
    var st2 := st1.(t := st1.t.(stopTriggered := true, stopTriggerDate := Some(b.date),
                                ambiguous := highHit && available == all, blockedByT1 := available < all));
    StopSale(s, policy, o, i, st2, FillAt(s, b, Min(b.high, trigger)));
  }

  /** A day that does not. */
  lemma UnstoppedKeeps(s: Strategy, policy: Policy, o: Opportunity, i: int, st: State)
    requires Valid(s, policy, o) && 1 <= i < |o.bars| && i <= policy.horizon + 1
    requires Noon(s, policy, o, i, st)
    requires policy.stop > 0.0 ==> o.bars[i].low > StopPrice(s, st.h, policy.stop, o.bars[i].open)
    ensures match Intraday(s, policy, o, i, st)
            case Return(t) => Good(s, policy, o, t)
            case Next(st') => Kept(s, policy, o, i, st')
            case Go(_) => true
  {
    hide SharesOf, CashOf, Orders, BoughtBefore, RespectsT1, OnGrid, SellBlocked, StopPrice, Price, Mark, Net, Finish;
    hide Sold;
    hide FillAt;
    var b := o.bars[i];
    var t0 := if i == 1 then st.t.(entryCloseNetPct := Net(s, st.h, Mark(s, b.close))) else st.t;
    var st1 := st.(t := t0);
    if Shares(st.h.lots, i, true) == All(st.h) {
      LastSale(s, policy, o, i, st1.(t := st1.t.(targetHit := true, targetDay := i - 1)),
               Price(s, st.h, policy.target, b.open), Target);
      LastSale(s, policy, o, i, st1, FillAt(s, b, b.close), Timeout);
    }
  }

  lemma DayKeeps(s: Strategy, policy: Policy, o: Opportunity, i: int, st: State)
    requires Valid(s, policy, o) && 1 <= i < |o.bars| && i <= policy.horizon + 1
    requires Kept(s, policy, o, i - 1, st) && Ready(o, i, st)
    ensures match Day(s, policy, o, i, st)
            case Return(t) => Good(s, policy, o, t)
            case Next(st') => Kept(s, policy, o, i, st')
            case Go(_) => true
  {
    hide Opening, Entry, Intraday, Good, Accounted, Running, Entered;
    OpeningKeeps(s, policy, o, i, st);
    var morning := Opening(s, policy, o, i, st);
    if morning.Go? {
      EntryKeeps(s, policy, o, i, morning.st);
      var noon := Entry(s, policy, o, i, morning.st);
      if noon.Go? {
        IntradayKeeps(s, policy, o, i, noon.st);
      }
    }
  }

  lemma {:induction false} DaysGood(s: Strategy, policy: Policy, o: Opportunity, i: int, st: State)
    requires Valid(s, policy, o) && 1 <= i <= |o.bars|
    requires Kept(s, policy, o, i - 1, st) && Ready(o, i, st)
    ensures Good(s, policy, o, Days(s, policy, o, i, st))
    decreases |o.bars| - i
  {
    hide Day;
    if i <= policy.horizon + 1 && i < |o.bars| {
      DayKeeps(s, policy, o, i, st);
      var f := Day(s, policy, o, i, st);
      if f.Next? {
        DaysGood(s, policy, o, i + 1, f.st);
      }
    }
  }

  /**
   * The ledger of every simulated trade conserves: each sale uses exactly the unsold lots of earlier days, no buy
   * follows a sale or a stop trigger, the cash stays within the budget, and a resolved trade has sold all it bought
   * for the net return it reports.
   */
  lemma LedgerConserves(s: Strategy, policy: Policy, o: Opportunity)
    requires Valid(s, policy, o)
    ensures Good(s, policy, o, Simulate(s, policy, o))
  {
    StartKept(s, policy, o);
    DaysGood(s, policy, o, 1, Start(o));
  }
}
