/** How far an exit can miss its stop or its target, and what an idle stop changes. */
module Bounds {
  import opened Money
  import opened Market
  import opened Trading
  import opened Simulator
  import opened Ledger

  /**
   * What an exit guarantees of the net return. A stop that sold everything on the day it triggered, without an opening
   * gap, stays inside the nominal loss, and so does a time exit; a target exit misses the target by less than three
   * cents of fees plus the rounding slack of its price.
   */
  ghost predicate Bounded(policy: Policy, t: Trade) {
    && (t.status == Exit(Stop) && t.stopTriggerDate == t.exitDate ==> t.netPct > -policy.stop + NET_SLACK)
    && (t.status == Exit(Timeout) && policy.stop > 0.0 ==> t.netPct > -policy.stop + NET_SLACK)
    && (t.status == Exit(Target) ==> NearTarget(policy, t))
  }

  ghost predicate NearTarget(policy: Policy, t: Trade) {
    Times(t.netPct, CashOf(t.fills, Buy))
      > Times(policy.target, CashOf(t.fills, Buy)) - Shortfall(SharesOf(t.fills, Buy))
  }

  /** A hundred times the cash by which a target exit may miss: three cents, and the slack on each share. */
  ghost function Shortfall(shares: nat): real {
    3.0 + shares as real * 0.00000001
  }

  // ---------- the value of a last sale ----------

  /** Selling everything at `price` realises the net return that the position had at `price`. */
  lemma SoldOutNet(s: Strategy, policy: Policy, st: State, b: Bar, i: int, price: real, cause: Cause)
    requires st.h.invested > 0.0 && Shares(st.h.lots, i, true) == All(st.h)
    ensures var st' := SellAll(s, st, b, i, price, cause);
            && All(st'.h) == 0
            && Finish(s, policy, st'.h, st'.t, b, i, cause).netPct == Net(s, st.h, price)
  {
    assert Proceeds(s, b.close, 0) == 0.0;
    hide Proceeds;
    SharesSold(st.h.lots, i);
  }

  /** A fill never falls below the marked price it was triggered at. */
  lemma FillNet(s: Strategy, b: Bar, h: Holding, price: real, floor: real)
    requires s.Valid() && InCents(b) && h.invested > 0.0 && (All(h) == 0 || All(h) >= 100)
    requires floor <= price
    ensures Net(s, h, Mark(s, floor)) <= Net(s, h, FillAt(s, b, price))
  {
    hide Net, Proceeds, RoundDown, OnGrid;
    MarkMonotone(s, floor, price);
    NetGridMonotone(s, h, Mark(s, floor), FillAt(s, b, price));
  }

  lemma NearTargetAt(s: Strategy, policy: Policy, h: Holding, open: real)
    requires s.Valid() && Held(h) && open > 0.0
    ensures Times(Net(s, h, Price(s, h, policy.target, open)), h.invested)
      > Times(policy.target, h.invested) - Shortfall(All(h))
  {
    hide Price, Proceeds, Worth, Times;
    PriceMeetsGoal(s, h, policy.target, open);
    NetTimesCash(Worth(s, h, Price(s, h, policy.target, open)), h.invested);
    NeedTimesCash(h, policy.target);
  }

  lemma NetTimesCash(w: real, d: real)
    requires d > 0.0
    ensures Times((w / d - 1.0) * 100.0, d) == 100.0 * w - 100.0 * d
  {
    assert w / d * d == w;
  }

  lemma NeedTimesCash(h: Holding, goal: real)
    ensures 100.0 * Need(h, goal) == 100.0 * h.invested + Times(goal, h.invested)
  {
  }

  lemma OnTarget(goal: real, net: real, invested: real, shares: nat)
    requires goal <= net && 0.0 < invested
    ensures Times(net, invested) > Times(goal, invested) - Shortfall(shares)
  {
    hide Times;
    TimesMonotone(goal, net, invested);
  }

  lemma TargetSale(s: Strategy, policy: Policy, o: Opportunity, i: int, st: State, price: real)
    requires Valid(s, policy, o) && Accounted(s, policy, o, i, st.h, st.t) && Held(st.h)
    requires Shares(st.h.lots, i, true) == All(st.h) && Orders(st.t.fills, Sell) == 0
    requires Times(Net(s, st.h, price), st.h.invested) > Times(policy.target, st.h.invested) - Shortfall(All(st.h))
    ensures var st' := SellAll(s, st, o.bars[i], i, price, Target);
            NearTarget(policy, Finish(s, policy, st'.h, st'.t, o.bars[i], i, Target))
  {
    hide Net, Proceeds, OnGrid, RespectsT1, Times;
    SoldOutNet(s, policy, st, o.bars[i], i, price, Target);
    var fill := Sold(s, st.h, o.bars[i], i, price, Target).1;
    Appended(st.t.fills, fill, 0);
    NoSales(st.t.fills);
  }

  lemma {:induction false} NoSales(fills: seq<Fill>)
    requires Orders(fills, Sell) == 0
    ensures SharesOf(fills, Sell) == 0
  {
    if fills != [] {
      NoSales(fills[..|fills| - 1]);
    }
  }

  // ---------- the bounds hold for every run ----------

  lemma OpeningBounded(s: Strategy, policy: Policy, o: Opportunity, i: int, st: State)
    requires Valid(s, policy, o) && 1 <= i < |o.bars| && i <= policy.horizon + 1
    requires Kept(s, policy, o, i - 1, st) && Ready(o, i, st)
    ensures var f := Opening(s, policy, o, i, st);
            f.Return? ==> Bounded(policy, f.t)
  {
    hide SharesOf, CashOf, Orders, BoughtBefore, RespectsT1, OnGrid, SellBlocked, StopPrice, Mark, Net, Sold;
    hide NearTarget;
    Overnight(s, policy, o, i - 1, st.h, st.t);
    var b := o.bars[i];
    if i !in o.invalid && All(st.h) > 0 {
      var st1 := st.(t := st.t.(holdingDays := i - 1, targetHit := true, targetDay := i - 1));
      var price := FillAt(s, b, b.open);
      SoldOutNet(s, policy, st1, b, i, price, Target);
      FillNet(s, b, st.h, b.open, b.open);
      if !st.t.stopTriggered && Net(s, st.h, Mark(s, b.open)) >= policy.target {
        OnTarget(policy.target, Net(s, st.h, price), st.h.invested, All(st.h));
        TargetSale(s, policy, o, i, st1, price);
      }
      if Shares(st.h.lots, i, true) > 0 {
        SaleKeeps(s, policy, o, i, st, price, st.stopCause);
      }
    }
  }

  lemma IntradayBounded(s: Strategy, policy: Policy, o: Opportunity, i: int, st: State)
    requires Valid(s, policy, o) && 1 <= i < |o.bars| && i <= policy.horizon + 1
    requires Noon(s, policy, o, i, st)
    ensures var f := Intraday(s, policy, o, i, st);
            f.Return? ==> Bounded(policy, f.t)
  {
    hide SharesOf, CashOf, Orders, BoughtBefore, RespectsT1, OnGrid, SellBlocked, StopPrice, Price, Mark, Net, Sold;
    hide NearTarget, Shares, FillAt;
    var b := o.bars[i];
    var t0 := if i == 1 then st.t.(entryCloseNetPct := Net(s, st.h, Mark(s, b.close))) else st.t;
    var all, available := All(st.h), Shares(st.h.lots, i, true);
    var trigger := StopPrice(s, st.h, policy.stop, b.open);
    var price := Price(s, st.h, policy.target, b.open);
    if available == all {
      var highHit := Net(s, st.h, Mark(s, b.high)) >= policy.target - NET_SLACK;
      var stopped := st.(t := t0.(stopTriggered := true, stopTriggerDate := Some(b.date), ambiguous := highHit,
        blockedByT1 := false));
      var reached := st.(t := t0.(targetHit := true, targetDay := i - 1));
      SoldOutNet(s, policy, stopped, b, i, FillAt(s, b, Min(b.high, trigger)), Stop);
      SoldOutNet(s, policy, st.(t := t0), b, i, FillAt(s, b, b.close), Timeout);
      if policy.stop > 0.0 {
        StopFillNet(s, policy, o, i, st);
      }
      NearTargetAt(s, policy, st.h, b.open);
      TargetSale(s, policy, o, i, reached, price);
    } else if available > 0 {
      SaleKeeps(s, policy, o, i, st, FillAt(s, b, Min(b.high, trigger)), st.stopCause);
    }
  }

  /**
    Above the stop at the open, a sale at the stop stays inside the loss; so does a close that never fell to the stop.
  */
  lemma StopFillNet(s: Strategy, policy: Policy, o: Opportunity, i: int, st: State)
    requires Valid(s, policy, o) && 1 <= i < |o.bars| && Noon(s, policy, o, i, st) && policy.stop > 0.0
    requires Shares(st.h.lots, i, true) == All(st.h)
    ensures var b := o.bars[i];
            var trigger := StopPrice(s, st.h, policy.stop, b.open);
            && Net(s, st.h, FillAt(s, b, Min(b.high, trigger))) > -policy.stop + NET_SLACK
            && (trigger < b.low ==> Net(s, st.h, FillAt(s, b, b.close)) > -policy.stop + NET_SLACK)
  {
    hide SharesOf, CashOf, Orders, BoughtBefore, RespectsT1, OnGrid, StopPrice, Mark, Net, Shares, FillAt;
    var b := o.bars[i];
    var trigger := StopPrice(s, st.h, policy.stop, b.open);
    FillNet(s, b, st.h, Min(b.high, trigger), trigger);
    if trigger < b.low {
      FillNet(s, b, st.h, b.close, trigger);
    }
  }

  lemma {:induction false} DaysBounded(s: Strategy, policy: Policy, o: Opportunity, i: int, st: State)
    requires Valid(s, policy, o) && 1 <= i <= |o.bars|
    requires Kept(s, policy, o, i - 1, st) && Ready(o, i, st)
    ensures Bounded(policy, Days(s, policy, o, i, st))
    decreases |o.bars| - i
  {
    hide Opening, Entry, Intraday, Accounted;
    if i <= policy.horizon + 1 && i < |o.bars| {
      DayKeeps(s, policy, o, i, st);
      OpeningKeeps(s, policy, o, i, st);
      OpeningBounded(s, policy, o, i, st);
      var morning := Opening(s, policy, o, i, st);
      if morning.Go? {
        EntryKeeps(s, policy, o, i, morning.st);
        var noon := Entry(s, policy, o, i, morning.st);
        if noon.Go? {
          IntradayBounded(s, policy, o, i, noon.st);
        } else {
          EntryReturns(s, policy, o, i, morning.st);
        }
      }
      var f := Day(s, policy, o, i, st);
      if f.Next? {
        DaysBounded(s, policy, o, i + 1, f.st);
      }
    }
  }

  lemma EntryReturns(s: Strategy, policy: Policy, o: Opportunity, i: int, st: State)
    requires Valid(s, policy, o) && 1 <= i < |o.bars| && Morning(s, policy, o, i, st)
    ensures var f := Entry(s, policy, o, i, st);
            f.Return? ==> !Resolved(f.t) && f.t.stopTriggered == st.t.stopTriggered
  {
  }

  /** A stop that triggers during the day and sells that day never exceeds the nominal loss, on any path in cents. */
  lemma StopHolds(s: Strategy, policy: Policy, o: Opportunity)
    requires Valid(s, policy, o)
    ensures var t := Simulate(s, policy, o);
            t.status == Exit(Stop) && t.stopTriggerDate == t.exitDate
            ==> t.netPct > -policy.stop + NET_SLACK && !t.stopExceeded
  {
    StartKept(s, policy, o);
    DaysBounded(s, policy, o, 1, Start(o));
    LedgerConserves(s, policy, o);
  }

  /** A target exit misses the net target by less than three cents of the cash plus the rounding slack per share. */
  lemma TargetRealised(s: Strategy, policy: Policy, o: Opportunity)
    requires Valid(s, policy, o)
    ensures var t := Simulate(s, policy, o);
            t.status == Exit(Target) ==> NearTarget(policy, t)
  {
    StartKept(s, policy, o);
    DaysBounded(s, policy, o, 1, Start(o));
  }

  /** The targets and stops of the search grid: targets of 2.5 and 3 percent, stops from 3 percent on. */
  ghost predicate OnSearchGrid(policy: Policy) {
    policy.target >= 2.5 && (policy.stop == 0.0 || policy.stop >= 3.0)
  }

  /** On the search grid a target exit never counts as an exceeded stop: at most three percent go to rounding. */
  lemma TargetInsideStop(s: Strategy, policy: Policy, o: Opportunity, t: Trade)
    requires Good(s, policy, o, t) && t.status == Exit(Target) && NearTarget(policy, t) && OnSearchGrid(policy)
    ensures policy.stop > 0.0 ==> t.netPct > -policy.stop + NET_SLACK
  {
    RoundingIsSmall(t.netPct, policy.target, CashOf(t.fills, Buy), SharesOf(t.fills, Buy) as real);
  }

  lemma RoundingIsSmall(net: real, target: real, cash: real, shares: real)
    requires Times(net, cash) > Times(target, cash) - (3.0 + shares * 0.00000001)
    requires 0.01 * shares <= cash && 100.0 <= shares && 2.5 <= target
    ensures net > -0.6
  {
    hide Times;
    if net <= -0.6 {
      TimesMonotone(net, -0.6, cash);
      TimesMonotone(2.5, target, cash);
      TimesConstants(cash);
    }
  }

  lemma TimesConstants(cash: real)
    ensures Times(-0.6, cash) == -0.6 * cash && Times(2.5, cash) == 2.5 * cash
  {
  }

  /** A loss beyond the stop can only come from an opening gap or from a sale delayed past the trigger day. */
  lemma ExceededOnlyByGapOrDelay(s: Strategy, policy: Policy, o: Opportunity)
    requires Valid(s, policy, o) && OnSearchGrid(policy)
    ensures var t := Simulate(s, policy, o);
            t.stopExceeded ==> t.stopTriggered && (t.status == Exit(StopGap) || t.stopTriggerDate != t.exitDate)
  {
    StartKept(s, policy, o);
    DaysBounded(s, policy, o, 1, Start(o));
    LedgerConserves(s, policy, o);
    var t := Simulate(s, policy, o);
    if t.status == Exit(Target) {
      TargetInsideStop(s, policy, o, t);
    }
  }

  // ---------- a stop that never triggers changes nothing ----------

  function WithoutStop(policy: Policy): Policy {
    policy.(stop := 0.0)
  }

  lemma LatchedDay(s: Strategy, policy: Policy, o: Opportunity, i: int, st: State)
    requires Valid(s, policy, o) && 2 <= i < |o.bars| && Ready(o, i, st) && st.t.stopTriggered
    ensures match Day(s, policy, o, i, st)
            case Return(t) => t.stopTriggered
            case Next(st') => st'.t.stopTriggered
            case Go(_) => true
  {
    hide Net, StopPrice, Mark, SellBlocked, Proceeds, Sold, Shares, Entry, Intraday, FillAt;
  }

  /** A triggered stop is never cancelled. */
  lemma {:induction false} StopLatches(s: Strategy, policy: Policy, o: Opportunity, i: int, st: State)
    requires Valid(s, policy, o) && 2 <= i && Ready(o, i, st) && st.t.stopTriggered
    ensures Days(s, policy, o, i, st).stopTriggered
    decreases |o.bars| - i
  {
    hide Day;
    if i <= policy.horizon + 1 && i < |o.bars| {
      LatchedDay(s, policy, o, i, st);
      var f := Day(s, policy, o, i, st);
      if f.Next? {
        StopLatches(s, policy, o, i + 1, f.st);
      }
    }
  }

  lemma OpeningIdle(s: Strategy, policy: Policy, o: Opportunity, i: int, st: State)
    requires Valid(s, policy, o) && OnSearchGrid(policy) && 1 <= i < |o.bars| && i <= policy.horizon + 1
    requires Kept(s, policy, o, i - 1, st) && Ready(o, i, st) && !st.t.stopTriggered
    ensures match Opening(s, policy, o, i, st)
            case Return(t) => t.stopTriggered || Opening(s, WithoutStop(policy), o, i, st) == Return(t)
            case Next(st') => st'.t.stopTriggered
            case Go(st') => Opening(s, WithoutStop(policy), o, i, st) == Go(st')
  {
    hide SharesOf, CashOf, Orders, BoughtBefore, RespectsT1, OnGrid, SellBlocked, StopPrice, Mark, Net, Sold;
    OpeningKeeps(s, policy, o, i, st);
    OpeningBounded(s, policy, o, i, st);
    var f := Opening(s, policy, o, i, st);
    if f.Return? && f.t.status == Exit(Target) {
      TargetInsideStop(s, policy, o, f.t);
    }
  }

  lemma IntradayIdle(s: Strategy, policy: Policy, o: Opportunity, i: int, st: State)
    requires Valid(s, policy, o) && OnSearchGrid(policy) && 1 <= i < |o.bars| && i <= policy.horizon + 1
    requires Noon(s, policy, o, i, st)
    ensures match Intraday(s, policy, o, i, st)
            case Return(t) => t.stopTriggered || Intraday(s, WithoutStop(policy), o, i, st) == Return(t)
            case Next(st') => st'.t.stopTriggered || Intraday(s, WithoutStop(policy), o, i, st) == Next(st')
            case Go(_) => true
  {
    hide SharesOf, CashOf, Orders, BoughtBefore, RespectsT1, OnGrid, SellBlocked, StopPrice, Price, Mark, Net, Sold;
    IntradayKeeps(s, policy, o, i, st);
    IntradayBounded(s, policy, o, i, st);
    var f := Intraday(s, policy, o, i, st);
    if f.Return? && f.t.status == Exit(Target) {
      TargetInsideStop(s, policy, o, f.t);
    }
  }

  lemma EntryIdle(s: Strategy, policy: Policy, o: Opportunity, i: int, st: State)
    requires Valid(s, policy, o) && 1 <= i < |o.bars|
    requires (i == 1 && st == Start(o)) || (i > 1 && Held(st.h))
    ensures Entry(s, WithoutStop(policy), o, i, st) == Entry(s, policy, o, i, st)
    ensures Entry(s, policy, o, i, st).Return? ==> Entry(s, policy, o, i, st).t.stopTriggered == st.t.stopTriggered
  {
    hide OnGrid, Bought, GapPct;
  }

  lemma DayIdle(s: Strategy, policy: Policy, o: Opportunity, i: int, st: State)
    requires Valid(s, policy, o) && OnSearchGrid(policy) && 1 <= i < |o.bars| && i <= policy.horizon + 1
    requires Kept(s, policy, o, i - 1, st) && Ready(o, i, st) && !st.t.stopTriggered
    ensures match Day(s, policy, o, i, st)
            case Return(t) => t.stopTriggered || Day(s, WithoutStop(policy), o, i, st) == Return(t)
            case Next(st') => st'.t.stopTriggered || Day(s, WithoutStop(policy), o, i, st) == Next(st')
            case Go(_) => true
  {
    hide Opening, Entry, Intraday, Accounted;
    OpeningKeeps(s, policy, o, i, st);
    OpeningIdle(s, policy, o, i, st);
    var morning := Opening(s, policy, o, i, st);
    if morning.Go? {
      EntryKeeps(s, policy, o, i, morning.st);
      EntryIdle(s, policy, o, i, morning.st);
      var noon := Entry(s, policy, o, i, morning.st);
      if noon.Go? {
        IntradayIdle(s, policy, o, i, noon.st);
      }
    }
  }

  lemma {:induction false} DaysIdle(s: Strategy, policy: Policy, o: Opportunity, i: int, st: State)
    requires Valid(s, policy, o) && OnSearchGrid(policy) && 1 <= i <= |o.bars|
    requires Kept(s, policy, o, i - 1, st) && Ready(o, i, st)
    requires !st.t.stopTriggered && !Days(s, policy, o, i, st).stopTriggered
    ensures Days(s, policy, o, i, st) == Days(s, WithoutStop(policy), o, i, st)
    decreases |o.bars| - i
  {
    hide Day, Accounted;
    if i <= policy.horizon + 1 && i < |o.bars| {
      DayIdle(s, policy, o, i, st);
      DayKeeps(s, policy, o, i, st);
      var f := Day(s, policy, o, i, st);
      if f.Next? {
        if f.st.t.stopTriggered {
          StopLatches(s, policy, o, i + 1, f.st);
        } else {
          DaysIdle(s, policy, o, i + 1, f.st);
        }
      }
    }
  }

  /** On the search grid a stop that never triggers leaves the very trade that no stop at all would have made. */
  lemma IdleStopChangesNothing(s: Strategy, policy: Policy, o: Opportunity)
    requires Valid(s, policy, o) && OnSearchGrid(policy) && !Simulate(s, policy, o).stopTriggered
    ensures Simulate(s, policy, o) == Simulate(s, WithoutStop(policy), o)
  {
    StartKept(s, policy, o);
    DaysIdle(s, policy, o, 1, Start(o));
  }
}
