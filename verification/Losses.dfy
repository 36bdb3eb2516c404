/** Exactly when a trade loses more than its stop: the sale that ended the position fell below a limit price. */
module Losses {
  import opened Money
  import opened Market
  import opened Trading
  import opened Simulator
  import opened Ledger
  import opened Bounds
  import Signals

  // ---------- the limit price of a position ----------

  predicate Loses(s: Strategy, h: Holding, loss: real, price: real) {
    h.invested != 0.0 && Net(s, h, price) <= -loss + NET_SLACK
  }

  ghost predicate AllLose(s: Strategy, h: Holding, loss: real, from: real, to: real) {
    forall q :: OnGrid(q) && from <= q < to ==> Loses(s, h, loss, q)
  }

  lemma LosesFrom(s: Strategy, h: Holding, loss: real, from: real, to: real)
    requires OnGrid(from) && Loses(s, h, loss, from) && AllLose(s, h, loss, RoundUp(from + 0.01), to)
    ensures AllLose(s, h, loss, from, to)
  {
    hide Loses, OnGrid;
    NextCent(from);
    forall q | OnGrid(q) && from <= q < to ensures Loses(s, h, loss, q) {
      if from < q {
        GridGap(from, q);
      }
    }
  }

  /** The first grid price from `from` on at which selling everything stays inside the loss. */
  ghost function LimitFrom(s: Strategy, h: Holding, loss: real, from: real): (r: real)
    requires s.Valid() && Held(h) && OnGrid(from)
    ensures OnGrid(r) && from <= r && !Loses(s, h, loss, r) && AllLose(s, h, loss, from, r)
    decreases TicksLeft(Reach(s, h, -loss + 1.0), from)
  {
    if Loses(s, h, loss, from) then
      assert TicksLeft(Reach(s, h, -loss + 1.0), RoundUp(from + 0.01)) < TicksLeft(Reach(s, h, -loss + 1.0), from) by {
        if Reach(s, h, -loss + 1.0) <= from { Reached(s, h, -loss + 1.0, from); }
        TickDescends(Reach(s, h, -loss + 1.0), from);
      }
      NextCent(from);
      var r := LimitFrom(s, h, loss, RoundUp(from + 0.01));
      assert AllLose(s, h, loss, from, r) by { LosesFrom(s, h, loss, from, r); }
      r
    else from
  }

  ghost function LossLimit(s: Strategy, h: Holding, loss: real): real
    requires s.Valid() && Held(h)
  {
    ZeroIsOnGrid();
    LimitFrom(s, h, loss, 0.0)
  }

  lemma ZeroIsOnGrid()
    ensures OnGrid(0.0)
  {
  }

  /** A sale of everything loses more than the stop exactly when its price is below the limit. */
  lemma BelowLimit(s: Strategy, h: Holding, loss: real, price: real)
    requires s.Valid() && Held(h) && All(h) >= 100 && OnGrid(price) && 0.0 <= price
    ensures Net(s, h, price) <= -loss + NET_SLACK <==> price < LossLimit(s, h, loss)
  {
    hide Net, OnGrid, LimitFrom;
    ZeroIsOnGrid();
    var limit := LossLimit(s, h, loss);
    if limit <= price {
      NetGridMonotone(s, h, limit, price);
    } else {
      assert Loses(s, h, loss, price);
    }
  }

  // ---------- the last sale of a resolved trade ----------

  function Last(fills: seq<Fill>): Fill
    requires fills != []
  {
    fills[|fills| - 1]
  }

  /** The position the last sale found: its shares, and the cash put in and taken out before it. */
  ghost function BeforeExit(fills: seq<Fill>): Holding
    requires fills != []
  {
    Holding([Lot(Last(fills).shares, 0)], CashOf(fills, Buy), CashOf(fills[..|fills| - 1], Sell))
  }

  ghost predicate SoldLast(s: Strategy, fills: seq<Fill>, price: real) {
    && fills != [] && Last(fills).side == Sell && Last(fills).price == price && OnGrid(price) && 0.0 <= price
    && Last(fills).shares >= 100 && Last(fills).cash == Proceeds(s, price, Last(fills).shares)
  }

  /** A stop that sold on an opening gap or after the day it triggered: at the open of the exit day. */
  predicate Late(t: Trade) {
    t.status == Exit(StopGap) || (t.status == Exit(Stop) && t.stopTriggerDate != t.exitDate)
  }

  ghost predicate ExitSale(s: Strategy, o: Opportunity, t: Trade) {
    Resolved(t) ==>
      && t.fills != [] && 0 <= t.holdingDays + 1 < |o.bars|
      && SoldLast(s, t.fills, Last(t.fills).price)
      && (Late(t) ==> var exit := o.bars[t.holdingDays + 1]; Last(t.fills).price == FillAt(s, exit, exit.open))
  }

  lemma FillIsOnGrid(s: Strategy, b: Bar, price: real)
    requires InCents(b) && b.Valid()
    ensures OnGrid(FillAt(s, b, price)) && 0.0 <= FillAt(s, b, price)
  {
    hide OnGrid;
  }

  lemma PriceIsOnGrid(s: Strategy, h: Holding, goal: real, reference: real)
    requires s.Valid() && Held(h) && reference > 0.0
    ensures OnGrid(Price(s, h, goal, reference)) && 0.0 <= Price(s, h, goal, reference)
  {
    var top := Bracket(s, h, goal, reference * 2.0);
    var hi := Bisect(Test(s, h, goal), 0.0, top, HALVINGS).1;
    ZeroIsOnGrid();
    if RoundUp(hi) < 0.0 {
      GridGap(RoundUp(hi), 0.0);
    }
  }

  lemma LastIsSold(s: Strategy, policy: Policy, o: Opportunity, i: int, st: State, price: real, cause: Cause)
    requires Valid(s, policy, o) && Accounted(s, policy, o, i, st.h, st.t) && Held(st.h)
    requires Shares(st.h.lots, i, true) > 0 && OnGrid(price) && 0.0 <= price
    ensures var st' := SellAll(s, st, o.bars[i], i, price, cause);
            && All(st'.h) == All(st.h) - Shares(st.h.lots, i, true) && st'.h.invested == st.h.invested
            && (All(st'.h) == 0 ==> SoldLast(s, st'.t.fills, price))
            && st'.t.fills != [] && Last(st'.t.fills).price == price
  {
    hide Proceeds, OnGrid, SharesOf, CashOf, Orders, BoughtBefore, RespectsT1;
    SaleKeeps(s, policy, o, i, st, price, cause);
  }

  lemma OpeningExit(s: Strategy, policy: Policy, o: Opportunity, i: int, st: State)
    requires Valid(s, policy, o) && 1 <= i < |o.bars| && i <= policy.horizon + 1
    requires Kept(s, policy, o, i - 1, st) && Ready(o, i, st)
    ensures Opening(s, policy, o, i, st).Return? ==> ExitSale(s, o, Opening(s, policy, o, i, st).t)
  {
    hide SharesOf, CashOf, Orders, BoughtBefore, RespectsT1, OnGrid, SellBlocked, StopPrice, Mark, Net, Sold;
    hide SoldLast, FillAt;
    Overnight(s, policy, o, i - 1, st.h, st.t);
    var b := o.bars[i];
    if i !in o.invalid && All(st.h) > 0 {
      var t := st.t.(holdingDays := i - 1);
      var gapped := !t.stopTriggered && policy.stop > 0.0 && b.open <= StopPrice(s, st.h, policy.stop, b.open);
      var st1 := if gapped
                 then State(st.h, t.(stopTriggered := true, stopTriggerDate := Some(b.date)), StopGap)
                 else st.(t := t);
      FillIsOnGrid(s, b, b.open);
      LastIsSold(s, policy, o, i, st1, FillAt(s, b, b.open), st1.stopCause);
      LastIsSold(s, policy, o, i, st1.(t := st1.t.(targetHit := true, targetDay := i - 1)), FillAt(s, b, b.open),
        Target);
    }
  }

  lemma IntradayExit(s: Strategy, policy: Policy, o: Opportunity, i: int, st: State)
    requires Valid(s, policy, o) && 1 <= i < |o.bars| && i <= policy.horizon + 1
    requires Noon(s, policy, o, i, st)
    ensures Intraday(s, policy, o, i, st).Return? ==> ExitSale(s, o, Intraday(s, policy, o, i, st).t)
  {
    hide Accounted, Running, Intraday, ExitSale, StopPrice, AboveStop;
    if policy.stop > 0.0 && o.bars[i].low <= StopPrice(s, st.h, policy.stop, o.bars[i].open) {
      StoppedExit(s, policy, o, i, st);
    } else {
      UnstoppedExit(s, policy, o, i, st);
    }
  }

  lemma StoppedExit(s: Strategy, policy: Policy, o: Opportunity, i: int, st: State)
    requires Valid(s, policy, o) && 1 <= i < |o.bars| && i <= policy.horizon + 1
    requires Noon(s, policy, o, i, st)
    requires policy.stop > 0.0 && o.bars[i].low <= StopPrice(s, st.h, policy.stop, o.bars[i].open)
    ensures Intraday(s, policy, o, i, st).Return? ==> ExitSale(s, o, Intraday(s, policy, o, i, st).t)
  {
    hide SharesOf, CashOf, Orders, BoughtBefore, RespectsT1, OnGrid, SellBlocked, StopPrice, Mark, Net, Sold, SoldLast;
    hide FillAt, Shares;
    var b := o.bars[i];
    var t0 := if i == 1 then st.t.(entryCloseNetPct := Net(s, st.h, Mark(s, b.close))) else st.t;
    var all, available := All(st.h), Shares(st.h.lots, i, true);
    var highHit := Net(s, st.h, Mark(s, b.high)) >= policy.target - NET_SLACK;
    var trigger := StopPrice(s, st.h, policy.stop, b.open);
    var st1 := st.(t := if highHit && available < all then t0.(targetBlockedT1 := true) else t0);
    var st2 := st1.(t := st1.t.(stopTriggered := true, stopTriggerDate := Some(b.date),
                                ambiguous := highHit && available == all, blockedByT1 := available < all));
    if available > 0 {
      SoldInDay(s, policy, o, i, st2, FillAt(s, b, Min(b.high, trigger)), st2.stopCause);
    }
  }

  lemma UnstoppedExit(s: Strategy, policy: Policy, o: Opportunity, i: int, st: State)
    requires Valid(s, policy, o) && 1 <= i < |o.bars| && i <= policy.horizon + 1
    requires Noon(s, policy, o, i, st)
    requires policy.stop > 0.0 ==> o.bars[i].low > StopPrice(s, st.h, policy.stop, o.bars[i].open)
    ensures Intraday(s, policy, o, i, st).Return? ==> ExitSale(s, o, Intraday(s, policy, o, i, st).t)
  {
    hide SharesOf, CashOf, Orders, BoughtBefore, RespectsT1, OnGrid, SellBlocked, StopPrice, Price, Mark, Net, Sold;
    hide FillAt, Shares, SoldLast;
    var b := o.bars[i];
    var t0 := if i == 1 then st.t.(entryCloseNetPct := Net(s, st.h, Mark(s, b.close))) else st.t;
    var st1 := st.(t := t0);
    if Shares(st.h.lots, i, true) == All(st.h) {
      PriceIsOnGrid(s, st.h, policy.target, b.open);
      SoldInDay(s, policy, o, i, st1.(t := st1.t.(targetHit := true, targetDay := i - 1)),
                Price(s, st.h, policy.target, b.open), Target);
      SoldInDay(s, policy, o, i, st1, FillAt(s, b, b.close), Timeout);
    }
  }

  /** A sale during the day that ends the position is never late. */
  lemma SoldInDay(s: Strategy, policy: Policy, o: Opportunity, i: int, st: State, price: real, cause: Cause)
    requires Valid(s, policy, o) && 1 <= i < |o.bars| && Accounted(s, policy, o, i, st.h, st.t) && Held(st.h)
    requires Shares(st.h.lots, i, true) > 0
    requires (OnGrid(price) && 0.0 <= price) || exists p :: price == FillAt(s, o.bars[i], p)
    requires cause == Stop ==> st.t.stopTriggerDate == Some(o.bars[i].date)
    requires cause != StopGap
    ensures var st' := SellAll(s, st, o.bars[i], i, price, cause);
            && All(st'.h) == All(st.h) - Shares(st.h.lots, i, true) && st'.h.invested != 0.0
            && (All(st'.h) == 0 ==> ExitSale(s, o, Finish(s, policy, st'.h, st'.t, o.bars[i], i, cause)))
  {
    hide SharesOf, CashOf, Orders, BoughtBefore, RespectsT1, OnGrid, Net, Sold, SoldLast, FillAt, Shares;
    if p :| price == FillAt(s, o.bars[i], p) {
      FillIsOnGrid(s, o.bars[i], p);
    }
    LastIsSold(s, policy, o, i, st, price, cause);
  }

  lemma {:induction false} DaysExit(s: Strategy, policy: Policy, o: Opportunity, i: int, st: State)
    requires Valid(s, policy, o) && 1 <= i <= |o.bars|
    requires Kept(s, policy, o, i - 1, st) && Ready(o, i, st)
    ensures ExitSale(s, o, Days(s, policy, o, i, st))
    decreases |o.bars| - i
  {
    hide Opening, Entry, Intraday, Accounted, SoldLast;
    if i <= policy.horizon + 1 && i < |o.bars| {
      DayKeeps(s, policy, o, i, st);
      OpeningKeeps(s, policy, o, i, st);
      OpeningExit(s, policy, o, i, st);
      var morning := Opening(s, policy, o, i, st);
      if morning.Go? {
        EntryKeeps(s, policy, o, i, morning.st);
        var noon := Entry(s, policy, o, i, morning.st);
        if noon.Go? {
          IntradayExit(s, policy, o, i, noon.st);
        } else {
          EntryReturns(s, policy, o, i, morning.st);
        }
      }
      var f := Day(s, policy, o, i, st);
      if f.Next? {
        DaysExit(s, policy, o, i + 1, f.st);
      }
    }
  }

  lemma SimulateExit(s: Strategy, policy: Policy, o: Opportunity)
    requires Valid(s, policy, o)
    ensures ExitSale(s, o, Simulate(s, policy, o))
  {
    StartKept(s, policy, o);
    DaysExit(s, policy, o, 1, Start(o));
  }

  /** Cash and shares before and after the last sale. */
  lemma AddLast(fills: seq<Fill>)
    requires fills != [] && Last(fills).side == Sell
    ensures CashOf(fills, Sell) == CashOf(fills[..|fills| - 1], Sell) + Last(fills).cash
  {
  }

  lemma OneLot(h: Holding, n: nat)
    requires h.lots == [Lot(n, 0)]
    ensures All(h) == n
  {
    assert |h.lots| == 1 && h.lots[0] == Lot(n, 0) && h.lots[..|h.lots| - 1] == [];
    assert Shares(h.lots, 0, false) == Shares([], 0, false) + n;
  }

  lemma NetOfSale(s: Strategy, h: Holding, price: real, cash: real)
    requires h.invested != 0.0 && cash == h.realized + Proceeds(s, price, All(h))
    ensures (cash / h.invested - 1.0) * 100.0 == Net(s, h, price)
  {
  }

  /** The net return of a resolved trade is that of its last sale. */
  lemma NetOfLastSale(s: Strategy, policy: Policy, o: Opportunity)
    requires Valid(s, policy, o)
    ensures var t := Simulate(s, policy, o);
            Resolved(t) ==>
              && t.fills != [] && SoldLast(s, t.fills, Last(t.fills).price) && Held(BeforeExit(t.fills))
              && All(BeforeExit(t.fills)) == Last(t.fills).shares
              && t.netPct == Net(s, BeforeExit(t.fills), Last(t.fills).price)
  {
    LedgerConserves(s, policy, o);
    SimulateExit(s, policy, o);
    hide Simulate;
    if Resolved(Simulate(s, policy, o)) {
      NetOfResolved(s, policy, o, Simulate(s, policy, o));
    }
  }

  lemma NetOfResolved(s: Strategy, policy: Policy, o: Opportunity, t: Trade)
    requires Reported(policy, o, t) && ExitSale(s, o, t) && Resolved(t)
    ensures t.fills != [] && SoldLast(s, t.fills, Last(t.fills).price) && Held(BeforeExit(t.fills))
    ensures All(BeforeExit(t.fills)) == Last(t.fills).shares
    ensures t.netPct == Net(s, BeforeExit(t.fills), Last(t.fills).price)
  {
    hide SharesOf, CashOf, Orders, OnGrid, Proceeds, Net, Shares, All, FillAt;
    AddLast(t.fills);
    OneLot(BeforeExit(t.fills), Last(t.fills).shares);
    NetOfSale(s, BeforeExit(t.fills), Last(t.fills).price, CashOf(t.fills, Sell));
  }

  /** A resolved trade loses more than its stop exactly when its last sale fell below the limit of the position. */
  lemma ExceededIffBelowLimit(s: Strategy, policy: Policy, o: Opportunity)
    requires Valid(s, policy, o) && policy.stop > 0.0
    ensures var t := Simulate(s, policy, o);
            Resolved(t) ==>
              && t.fills != [] && Held(BeforeExit(t.fills))
              && (t.stopExceeded <==> Last(t.fills).price < LossLimit(s, BeforeExit(t.fills), policy.stop))
  {
    LedgerConserves(s, policy, o);
    NetOfLastSale(s, policy, o);
    hide Simulate, Net, LossLimit, BeforeExit, Balanced;
    var t := Simulate(s, policy, o);
    if Resolved(t) {
      BelowLimit(s, BeforeExit(t.fills), policy.stop, Last(t.fills).price);
    }
  }

  /** The open of the exit day, after slippage, is below the limit of the position that was left. */
  ghost predicate OpensBelowLimit(s: Strategy, policy: Policy, o: Opportunity, t: Trade) {
    && s.Valid() && t.fills != [] && Held(BeforeExit(t.fills)) && 0 <= t.holdingDays + 1 < |o.bars|
    && var exit := o.bars[t.holdingDays + 1];
       FillAt(s, exit, exit.open) < LossLimit(s, BeforeExit(t.fills), policy.stop)
  }

  /**
   * On the search grid a stop is exceeded exactly when it sold on an opening gap or after its trigger day, and the open
   * of that day was below the limit of the position.
   */
  lemma ExceededIffLateAndLow(s: Strategy, policy: Policy, o: Opportunity)
    requires Valid(s, policy, o) && OnSearchGrid(policy)
    ensures var t := Simulate(s, policy, o);
            t.stopExceeded <==> policy.stop > 0.0 && Late(t) && OpensBelowLimit(s, policy, o, t)
  {
    hide Simulate;
    LedgerConserves(s, policy, o);
    ExceededOnlyByGapOrDelay(s, policy, o);
    SimulateExit(s, policy, o);
    if policy.stop > 0.0 {
      ExceededIffBelowLimit(s, policy, o);
    }
    LateAndLow(s, policy, o, Simulate(s, policy, o));
  }

  lemma LateAndLow(s: Strategy, policy: Policy, o: Opportunity, t: Trade)
    requires s.Valid() && Reported(policy, o, t) && ExitSale(s, o, t)
    requires t.stopExceeded ==> t.stopTriggered && (t.status == Exit(StopGap) || t.stopTriggerDate != t.exitDate)
    requires policy.stop > 0.0 && Resolved(t) ==>
      && t.fills != [] && Held(BeforeExit(t.fills))
      && (t.stopExceeded <==> Last(t.fills).price < LossLimit(s, BeforeExit(t.fills), policy.stop))
    ensures t.stopExceeded <==> policy.stop > 0.0 && Late(t) && OpensBelowLimit(s, policy, o, t)
  {
    hide SharesOf, CashOf, OnGrid, LossLimit, BeforeExit, FillAt, SoldLast, Held;
  }

  // ---------- the guard of the opening that loses more than the stop ----------

  /**
   * At the open of the day a held position can be sold, its stop has triggered before or the
   * open gaps through it, and the open, after slippage, is below the limit of the position.
   */
  ghost predicate LosesAtOpen(s: Strategy, policy: Policy, o: Opportunity, i: int, st: State)
    requires Valid(s, policy, o) && 1 <= i < |o.bars|
  {
    var b := o.bars[i];
    && policy.stop > 0.0 && i !in o.invalid && Held(st.h)
    && !SellBlocked(b, o.bars[i - 1].close, o.code)
    && (st.t.stopTriggered || b.open <= StopPrice(s, st.h, policy.stop, b.open))
    && FillAt(s, b, b.open) < LossLimit(s, st.h, policy.stop)
  }

  /** What the opening returns, and when that is a stop that sold everything. */
  lemma OpeningStops(s: Strategy, policy: Policy, o: Opportunity, i: int, st: State)
    requires Valid(s, policy, o) && 1 <= i < |o.bars| && i <= policy.horizon + 1
    requires Kept(s, policy, o, i - 1, st) && Ready(o, i, st)
    ensures
      var b, f := o.bars[i], Opening(s, policy, o, i, st);
      var stops := i !in o.invalid && Held(st.h)
        && (st.t.stopTriggered || (policy.stop > 0.0 && b.open <= StopPrice(s, st.h, policy.stop, b.open)));
      && (stops && !SellBlocked(b, o.bars[i - 1].close, o.code) ==>
            f.Return? && f.t.netPct == Net(s, st.h, FillAt(s, b, b.open))
            && (f.t.stopExceeded <==> policy.stop > 0.0 && f.t.netPct <= -policy.stop + NET_SLACK))
      && (stops && SellBlocked(b, o.bars[i - 1].close, o.code) ==> f.Next?)
      && (!stops ==> !f.Next? && (f.Return? ==> !Resolved(f.t) || f.t.status == Exit(Target)))
  {
    hide SharesOf, CashOf, Orders, BoughtBefore, RespectsT1, OnGrid, SellBlocked, StopPrice, Mark, Net, Sold, FillAt;
    Overnight(s, policy, o, i - 1, st.h, st.t);
    var b := o.bars[i];
    if i !in o.invalid && All(st.h) > 0 {
      var t := st.t.(holdingDays := i - 1);
      var gapped := !t.stopTriggered && policy.stop > 0.0 && b.open <= StopPrice(s, st.h, policy.stop, b.open);
      var st1 := if gapped
                 then State(st.h, t.(stopTriggered := true, stopTriggerDate := Some(b.date)), StopGap)
                 else st.(t := t);
      SoldOutNet(s, policy, st1, b, i, FillAt(s, b, b.open), st1.stopCause);
    }
  }

  lemma OpeningExceeds(s: Strategy, policy: Policy, o: Opportunity, i: int, st: State)
    requires Valid(s, policy, o) && OnSearchGrid(policy) && 1 <= i < |o.bars| && i <= policy.horizon + 1
    requires Kept(s, policy, o, i - 1, st) && Ready(o, i, st)
    ensures var f := Opening(s, policy, o, i, st);
      (f.Return? && f.t.stopExceeded) <==> LosesAtOpen(s, policy, o, i, st)
  {
    OpeningStops(s, policy, o, i, st);
    OpeningKeeps(s, policy, o, i, st);
    OpeningBounded(s, policy, o, i, st);
    hide Opening, OnGrid, SellBlocked, StopPrice, Net, FillAt, LossLimit, Balanced, Shares, NearTarget, CashOf;
    hide SharesOf;
    var f, b := Opening(s, policy, o, i, st), o.bars[i];
    if Held(st.h) {
      EnoughHeld(s, policy, o, i, st);
      FillIsOnGrid(s, b, b.open);
      BelowLimit(s, st.h, policy.stop, FillAt(s, b, b.open));
    }
    if f.Return? && f.t.status == Exit(Target) {
      TargetInsideStop(s, policy, o, f.t);
    }
  }

  lemma EnoughHeld(s: Strategy, policy: Policy, o: Opportunity, i: int, st: State)
    requires Kept(s, policy, o, i - 1, st) && Held(st.h)
    ensures All(st.h) >= 100
  {
  }

  /** During the day a stop on the search grid is never exceeded. */
  lemma IntradayNeverExceeds(s: Strategy, policy: Policy, o: Opportunity, i: int, st: State)
    requires Valid(s, policy, o) && OnSearchGrid(policy) && 1 <= i < |o.bars| && i <= policy.horizon + 1
    requires Noon(s, policy, o, i, st)
    ensures var f := Intraday(s, policy, o, i, st);
      f.Return? ==> !f.t.stopExceeded
  {
    IntradayKeeps(s, policy, o, i, st);
    IntradayBounded(s, policy, o, i, st);
    IntradayExit(s, policy, o, i, st);
    IntradayReturns(s, policy, o, i, st);
    hide Intraday, Balanced, NearTarget, CashOf, SharesOf, SoldLast, FillAt;
    var f := Intraday(s, policy, o, i, st);
    if f.Return? && f.t.status == Exit(Target) {
      TargetInsideStop(s, policy, o, f.t);
    }
  }

  /** An exit during the day is no gap, and a stop that ends the position then has triggered on that day. */
  lemma IntradayReturns(s: Strategy, policy: Policy, o: Opportunity, i: int, st: State)
    requires Valid(s, policy, o) && 1 <= i < |o.bars| && i <= policy.horizon + 1
    requires Noon(s, policy, o, i, st)
    ensures var f := Intraday(s, policy, o, i, st);
      f.Return? ==> f.t.status != Exit(StopGap) && (f.t.status == Exit(Stop) ==> f.t.stopTriggerDate == f.t.exitDate)
  {
    hide SharesOf, CashOf, Orders, BoughtBefore, RespectsT1, OnGrid, SellBlocked, StopPrice, Price, Mark, Net, Sold;
    hide FillAt;
    hide Shares, Accounted;
  }

  /** A day loses more than the stop exactly when its opening does. */
  lemma DayExceeds(s: Strategy, policy: Policy, o: Opportunity, i: int, st: State)
    requires Valid(s, policy, o) && OnSearchGrid(policy) && 1 <= i < |o.bars| && i <= policy.horizon + 1
    requires Kept(s, policy, o, i - 1, st) && Ready(o, i, st)
    ensures var f := Day(s, policy, o, i, st);
      (f.Return? && f.t.stopExceeded) <==> LosesAtOpen(s, policy, o, i, st)
  {
    OpeningExceeds(s, policy, o, i, st);
    OpeningKeeps(s, policy, o, i, st);
    hide Opening, Entry, Intraday, Accounted, Kept, Morning, Noon, LosesAtOpen, OnSearchGrid, Balanced;
    var morning := Opening(s, policy, o, i, st);
    if morning.Go? {
      EntryKeeps(s, policy, o, i, morning.st);
      var noon := Entry(s, policy, o, i, morning.st);
      if noon.Go? {
        IntradayNeverExceeds(s, policy, o, i, noon.st);
      } else {
        EntryReturns(s, policy, o, i, morning.st);
      }
    }
  }

  // ---------- over all days ----------

  predicate InHorizon(policy: Policy, o: Opportunity, i: int) {
    1 <= i < |o.bars| && i <= policy.horizon + 1
  }

  /** The state in which the i-th day begins; nothing when the trade has ended before. */
  function StateAt(s: Strategy, policy: Policy, o: Opportunity, i: nat): (r: Option<State>)
    requires Valid(s, policy, o)
    ensures r.Some? ==> Ready(o, i, r.value)
  {
    if i == 0 then None
    else if i == 1 then Some(Start(o))
    else
      var before := StateAt(s, policy, o, i - 1);
      if before.None? || !InHorizon(policy, o, i - 1) then None
      else
        match Day(s, policy, o, i - 1, before.value)
        case Return(_) => None
        case Next(st) => Some(st)
  }

  /** The i-th day is reached, and its opening loses more than the stop. */
  ghost predicate LosesOn(s: Strategy, policy: Policy, o: Opportunity, i: nat)
    requires Valid(s, policy, o)
  {
    && InHorizon(policy, o, i) && StateAt(s, policy, o, i).Some?
    && LosesAtOpen(s, policy, o, i, StateAt(s, policy, o, i).value)
  }

  lemma NextState(s: Strategy, policy: Policy, o: Opportunity, i: nat, st: State)
    requires Valid(s, policy, o) && i >= 1 && StateAt(s, policy, o, i) == Some(st)
    ensures !InHorizon(policy, o, i) ==> StateAt(s, policy, o, i + 1) == None
    ensures InHorizon(policy, o, i) ==>
      StateAt(s, policy, o, i + 1) == match Day(s, policy, o, i, st) case Return(_) => None case Next(st') => Some(st')
  {
  }

  lemma {:induction false} NoStateAfter(s: Strategy, policy: Policy, o: Opportunity, i: nat, j: nat)
    requires Valid(s, policy, o) && 1 <= i <= j && StateAt(s, policy, o, i) == None
    ensures StateAt(s, policy, o, j) == None
  {
    hide Day;
    if i < j {
      NoStateAfter(s, policy, o, i, j - 1);
    }
  }

  /** The opening of some reached day from the i-th on loses more than the stop. */
  ghost predicate LosesSince(s: Strategy, policy: Policy, o: Opportunity, i: nat)
    requires Valid(s, policy, o)
  {
    exists j: nat :: i <= j && LosesOn(s, policy, o, j)
  }

  lemma SinceStep(s: Strategy, policy: Policy, o: Opportunity, i: nat)
    requires Valid(s, policy, o)
    ensures LosesSince(s, policy, o, i) <==> LosesOn(s, policy, o, i) || LosesSince(s, policy, o, i + 1)
  {
    hide LosesOn;
    if j: nat :| i <= j && LosesOn(s, policy, o, j) {
      assert j == i || i + 1 <= j;
    }
    if j: nat :| i + 1 <= j && LosesOn(s, policy, o, j) {
      assert i <= j;
    }
  }

  lemma LosesOnIs(s: Strategy, policy: Policy, o: Opportunity, i: nat, st: State)
    requires Valid(s, policy, o) && StateAt(s, policy, o, i) == Some(st)
    ensures LosesOn(s, policy, o, i) <==> InHorizon(policy, o, i) && LosesAtOpen(s, policy, o, i, st)
  {
    hide StateAt, LosesAtOpen;
  }

  lemma DaysAre(s: Strategy, policy: Policy, o: Opportunity, i: nat, st: State)
    requires Valid(s, policy, o) && Ready(o, i, st)
    ensures !InHorizon(policy, o, i) ==> Days(s, policy, o, i, st) == st.t
    ensures InHorizon(policy, o, i) ==>
      Days(s, policy, o, i, st) ==
      match Day(s, policy, o, i, st)
      case Return(t) => t
      case Next(st') => Days(s, policy, o, i + 1, st')
  {
    hide Day;
  }

  /** The trade ends on the day, or before it for want of days. */
  lemma LastDayExceeds(s: Strategy, policy: Policy, o: Opportunity, i: nat, st: State)
    requires Valid(s, policy, o) && OnSearchGrid(policy) && 1 <= i <= |o.bars|
    requires Kept(s, policy, o, i - 1, st) && Ready(o, i, st) && StateAt(s, policy, o, i) == Some(st)
    requires InHorizon(policy, o, i) ==> Day(s, policy, o, i, st).Return?
    ensures Days(s, policy, o, i, st).stopExceeded <==> LosesSince(s, policy, o, i)
  {
    NotExceededYet(s, policy, o, i, st);
    hide Day, Days, Accounted, Kept, LosesAtOpen, LosesOn, LosesSince, OnSearchGrid, StateAt, Valid, Ready;
    NextState(s, policy, o, i, st);
    NoneLater(s, policy, o, i);
    SinceStep(s, policy, o, i);
    LosesOnIs(s, policy, o, i, st);
    DaysAre(s, policy, o, i, st);
    if InHorizon(policy, o, i) {
      DayExceeds(s, policy, o, i, st);
    }
  }

  /** The trade goes on to the next day. */
  lemma OneMoreDay(s: Strategy, policy: Policy, o: Opportunity, i: nat, st: State)
    requires Valid(s, policy, o) && OnSearchGrid(policy) && 1 <= i <= |o.bars|
    requires Kept(s, policy, o, i - 1, st) && Ready(o, i, st) && StateAt(s, policy, o, i) == Some(st)
    requires InHorizon(policy, o, i) && Day(s, policy, o, i, st).Next?
    ensures var next := Day(s, policy, o, i, st).st;
      && i < |o.bars| && Kept(s, policy, o, i, next) && Ready(o, i + 1, next)
      && StateAt(s, policy, o, i + 1) == Some(next)
      && Days(s, policy, o, i, st) == Days(s, policy, o, i + 1, next)
      && (LosesSince(s, policy, o, i) <==> LosesSince(s, policy, o, i + 1))
  {
    hide Day, Days, Accounted, Kept, LosesAtOpen, LosesOn, LosesSince, OnSearchGrid, StateAt, Valid;
    NextState(s, policy, o, i, st);
    SinceStep(s, policy, o, i);
    LosesOnIs(s, policy, o, i, st);
    DaysAre(s, policy, o, i, st);
    DayKeeps(s, policy, o, i, st);
    DayExceeds(s, policy, o, i, st);
  }

  lemma {:induction false} DaysExceed(s: Strategy, policy: Policy, o: Opportunity, i: nat, st: State)
    requires Valid(s, policy, o) && OnSearchGrid(policy) && 1 <= i <= |o.bars|
    requires Kept(s, policy, o, i - 1, st) && Ready(o, i, st) && StateAt(s, policy, o, i) == Some(st)
    ensures Days(s, policy, o, i, st).stopExceeded <==> LosesSince(s, policy, o, i)
    decreases |o.bars| - i
  {
    hide Day, Days, Kept, LosesSince, OnSearchGrid, StateAt, Valid, Ready;
    if InHorizon(policy, o, i) && Day(s, policy, o, i, st).Next? {
      OneMoreDay(s, policy, o, i, st);
      DaysExceed(s, policy, o, i + 1, Day(s, policy, o, i, st).st);
    } else {
      LastDayExceeds(s, policy, o, i, st);
    }
  }

  lemma NotExceededYet(s: Strategy, policy: Policy, o: Opportunity, i: nat, st: State)
    requires i >= 1 && Kept(s, policy, o, i - 1, st)
    ensures !st.t.stopExceeded
  {
  }

  lemma NoneLater(s: Strategy, policy: Policy, o: Opportunity, i: nat)
    requires Valid(s, policy, o) && StateAt(s, policy, o, i + 1) == None
    ensures !LosesSince(s, policy, o, i + 1)
  {
    hide StateAt, LosesAtOpen;
    forall j: nat | i + 1 <= j ensures !LosesOn(s, policy, o, j) {
      NoStateAfter(s, policy, o, i + 1, j);
    }
  }

  /**
   * On the search grid a trade loses more than its stop exactly when on some day
   * it reaches the position can be sold at the open, the stop has triggered before
   * or the open gaps through it, and the open, after slippage, is below the limit.
   */
  lemma ExceededIffSomeOpening(s: Strategy, policy: Policy, o: Opportunity)
    requires Valid(s, policy, o) && OnSearchGrid(policy)
    ensures Simulate(s, policy, o).stopExceeded <==> exists i: nat :: LosesOn(s, policy, o, i)
  {
    hide Days, LosesAtOpen, OnSearchGrid;
    StartKept(s, policy, o);
    assert StateAt(s, policy, o, 1) == Some(Start(o));
    DaysExceed(s, policy, o, 1, Start(o));
    if i: nat :| LosesOn(s, policy, o, i) {
      assert 1 <= i;
    }
  }

  // ---------- it happens: a gap, and a sale delayed by T+1 ----------

  function FreeTrading(): Strategy {
    Strategy(20000.0, 0.0, 0.0, 0.0, 0.0, 0.0, 20.0)
  }

  function TenPercentStop(): Policy {
    Policy(Signals.Any, 1, 5, 3.0, 10.0)
  }

  /** Bought at 10; the low of the entry day is given, and the next day opens at 5. */
  function Fall(low: real): Opportunity {
    Opportunity(TradeId("sh600000", 0), "sh600000", "", Later,
                [Bar(0, 10.0, 10.1, 9.9, 10.0, 1.0), Bar(1, 10.0, 10.1, low, 10.0, 1.0),
                  Bar(2, 5.0, 5.1, 4.9, 5.0, 1.0)],
                [false, false, false], map[], {})
  }

  function Bought2000(): Holding {
    Holding([Lot(2000, 1)], 20000.0, 0.0)
  }

  lemma FallIsValid(low: real)
    requires low == 9.9 || low == 4.9
    ensures Valid(FreeTrading(), TenPercentStop(), Fall(low)) && OnSearchGrid(TenPercentStop())
  {
  }

  /** Without fees and slippage money is price times shares. */
  lemma FreeProceeds(price: real, n: nat)
    ensures Proceeds(FreeTrading(), price, n) == PurchaseCost(FreeTrading(), price, n) == Times(price, n as real)
  {
    NoFee(Times(price, n as real));
  }

  lemma NoFee(amount: real)
    ensures Charge(amount, 0.0, 0.0) == 0.0
  {
    assert Times(amount, 0.0) == 0.0;
  }

  lemma FreeMark(price: real)
    requires OnGrid(price)
    ensures Mark(FreeTrading(), price) == price
  {
    assert Times(price, 1.0) == price;
  }

  lemma FreeNet(price: real)
    ensures Net(FreeTrading(), Bought2000(), price) == (price / 10.0 - 1.0) * 100.0
  {
    hide Proceeds;
    FreeProceeds(price, 2000);
    OneLotBought();
    assert Times(price, 2000 as real) / 20000.0 == price / 10.0;
  }

  lemma OneLotBought()
    ensures All(Bought2000()) == Shares(Bought2000().lots, 1, false) == Shares(Bought2000().lots, 2, true) == 2000
    ensures Shares(Bought2000().lots, 1, true) == 0
  {
    assert [Lot(2000, 1)][..0] == [];
  }

  lemma BuysAll(low: real)
    requires low == 9.9 || low == 4.9
    ensures var b := Fall(low).bars[1];
      && BuyPrice(FreeTrading(), b) == 10.0
      && Bought(FreeTrading(), Holding([], 0.0, 0.0), "sh600000", b, 1, 20000.0)
           == Some((Bought2000(), Fill(1, Buy, 2000, 10.0, 20000.0, Signal)))
  {
    hide PurchaseCost;
    var b := Fall(low).bars[1];
    assert Times(b.open, 1.0) == 10.0;
    assert OnGrid(10.0);
    assert "sh600000"[3] == '0' && "sh68"[3] == '8';
    FreeProceeds(10.0, 2000);
    assert PurchaseCost(FreeTrading(), 10.0, 2000) == 20000.0;
    assert Quotient(Trunc(20000.0 / 10.0), 100) * 100 == 2000;
    assert Affordable(FreeTrading(), 10.0, 2000, 100, 100, 20000.0) == 2000;
    assert OrderSize(FreeTrading(), "sh600000", b, 20000.0) == 2000;
    var none: seq<Lot> := [];
    assert none + [Lot(2000, 1)] == [Lot(2000, 1)];
  }

  /** The trigger lies above every price at which the loss is reached. */
  lemma TriggerAbove(price: real, reference: real)
    requires OnGrid(price) && price <= 9.0 && reference > 0.0 && FreeTrading().Valid() && Held(Bought2000())
    ensures price <= StopPrice(FreeTrading(), Bought2000(), 10.0, reference)
  {
    hide OnGrid, TickUp, Price, Net;
    var trigger := StopPrice(FreeTrading(), Bought2000(), 10.0, reference);
    FreeMark(trigger);
    FreeNet(trigger);
  }

  lemma {:induction false} HalvedBelow(width: real, rounds: nat)
    requires width >= 0.0
    ensures 0.0 <= Halved(width, rounds) <= width
    ensures rounds >= 6 ==> Halved(width, rounds) <= width / 64.0
    decreases rounds
  {
    if rounds > 0 {
      HalvedBelow(width / 2.0, rounds - 1);
      if rounds == 6 {
        assert Halved(width, 6) == Halved(width / 2.0, 5) == Halved(width / 4.0, 4) == Halved(width / 8.0, 3);
        assert Halved(width / 8.0, 3) == Halved(width / 16.0, 2) == Halved(width / 32.0, 1) == Halved(width / 64.0, 0);
      }
    }
  }

  lemma PriceUnder()
    requires FreeTrading().Valid() && Held(Bought2000())
    ensures Price(FreeTrading(), Bought2000(), -10.0, 10.0) < 9.4
  {
    hide Net, Bisect, OnGrid;
    var s, h := FreeTrading(), Bought2000();
    FreeNet(20.0);
    BracketStep(s, h, -10.0, 20.0);
    var below := PriceIsTight(s, h, -10.0, 10.0);
    FreeNet(below);
    HalvedBelow(20.0, HALVINGS);
  }

  lemma TickNotAbove(s: Strategy, h: Holding, loss: real, from: real, q: real)
    requires s.Valid() && Held(h) && OnGrid(from) && OnGrid(q) && from <= q && !Breached(s, h, loss, q)
    ensures TickUp(s, h, loss, from) <= q
  {
    hide Breached, OnGrid;
    assert AllBreached(s, h, loss, from, TickUp(s, h, loss, from));
  }

  lemma FreeStart(price: real)
    requires OnGrid(price)
    ensures RoundUp(price / Keep(FreeTrading())) == price
  {
    hide OnGrid;
    assert price / 1.0 == price;
  }

  lemma NotBreachedAt(price: real)
    requires OnGrid(price) && price >= 9.1 && Held(Bought2000())
    ensures !Breached(FreeTrading(), Bought2000(), 10.0, price)
  {
    hide OnGrid, Net;
    FreeMark(price);
    FreeNet(price);
  }

  /** The search does not go far beyond the nine yuan at which a tenth is lost. */
  lemma TriggerBelow()
    requires FreeTrading().Valid() && Held(Bought2000())
    ensures StopPrice(FreeTrading(), Bought2000(), 10.0, 10.0) < 9.6
  {
    var s, h := FreeTrading(), Bought2000();
    assert OnGrid(9.5);
    hide TickUp, Price, OnGrid, Breached, RoundUp, Keep;
    PriceUnder();
    var price := Price(s, h, -10.0, 10.0);
    PriceIsOnGrid(s, h, -10.0, 10.0);
    FreeStart(price);
    NotBreachedAt(9.5);
    TickNotAbove(s, h, 10.0, price, 9.5);
  }

  /** The trade after the entry, and the state in which the second day begins. */
  function Entered2000(low: real): State {
    var st := Start(Fall(low));
    Filled(st, Bought2000(), Fill(1, Buy, 2000, 10.0, 20000.0, Signal))
  }

  lemma EntryOfFall(low: real)
    requires (low == 9.9 || low == 4.9) && Valid(FreeTrading(), TenPercentStop(), Fall(low))
    ensures var s, policy, o := FreeTrading(), TenPercentStop(), Fall(low);
      && Opening(s, policy, o, 1, Start(o)) == Go(Start(o))
      && Entry(s, policy, o, 1, Start(o)) == Go(Entered2000(low))
  {
    hide Bought, Valid, Shares, SellBlocked, Budget, GapPct;
    BuysAll(low);
    FirstBudget(low);
  }

  lemma FirstBudget(low: real)
    requires low == 9.9 || low == 4.9
    ensures Budget(FreeTrading(), TenPercentStop(), 0.0) == 20000.0
    ensures GapPct(Fall(low).bars[1], Fall(low).bars[0]) == 0.0
    ensures All(Start(Fall(low)).h) == 0 && !OnePrice(Fall(low).bars[1])
  {
  }

  /** On the entry day nothing can be sold: the stop stays quiet above its trigger and is only noted below it. */
  lemma FirstDayOfFall(low: real) returns (st: State)
    requires (low == 9.9 || low == 4.9) && Valid(FreeTrading(), TenPercentStop(), Fall(low))
    ensures Day(FreeTrading(), TenPercentStop(), Fall(low), 1, Start(Fall(low))) == Next(st)
    ensures st.h == Bought2000()
    ensures low == 9.9 ==> !st.t.stopTriggered
    ensures low == 4.9 ==> st.t.stopTriggered && st.t.stopTriggerDate == Some(1) && st.stopCause == Stop
  {
    hide Bought, Valid, Opening, Entry, SellBlocked, Net, Mark, StopPrice, Price;
    EntryOfFall(low);
    OneLotBought();
    if low == 9.9 {
      TriggerBelow();
    } else {
      CentPrice(490);
      TriggerAbove(4.9, 10.0);
    }
    var o := Fall(low);
    st := Intraday(FreeTrading(), TenPercentStop(), o, 1, Entered2000(low)).st;
  }

  lemma CentPrice(cents: int)
    ensures OnGrid(cents as real / 100.0)
  {
    var p := Cents(cents);
  }

  /** The next day opens at 5, far through the stop, and everything is sold there. */
  lemma SecondDayOfFall(low: real, st: State)
    requires Valid(FreeTrading(), TenPercentStop(), Fall(low)) && st.h == Bought2000() && Ready(Fall(low), 2, st)
    requires !st.t.stopTriggered || st.stopCause == Stop
    ensures var f := Day(FreeTrading(), TenPercentStop(), Fall(low), 2, st);
      && f.Return? && f.t.stopExceeded
      && f.t.status == Exit(if st.t.stopTriggered then Stop else StopGap)
      && f.t.exitDate == Some(2)
      && (st.t.stopTriggered ==> f.t.stopTriggerDate == st.t.stopTriggerDate)
  {
    hide Valid, Net, StopPrice, Price, Proceeds, Entry, Intraday, OnGrid, Mark;
    var s, policy, o, b := FreeTrading(), TenPercentStop(), Fall(low), Fall(low).bars[2];
    OneLotBought();
    CentPrice(500);
    TriggerAbove(5.0, 5.0);
    FreeMark(5.0);
    FreeNet(5.0);
    SoldOutNet(s, policy, st, b, 2, 5.0, StopGap);
    SoldOutNet(s, policy, st, b, 2, 5.0, Stop);
  }

  /** Both ways happen: sold on a gap, and sold a day late because of T+1. */
  lemma StopsAreExceeded()
    ensures exists s, policy, o ::
      Valid(s, policy, o) && OnSearchGrid(policy) && Simulate(s, policy, o).stopExceeded
      && Simulate(s, policy, o).status == Exit(StopGap)
    ensures exists s, policy, o ::
      Valid(s, policy, o) && OnSearchGrid(policy) && Simulate(s, policy, o).stopExceeded
      && Simulate(s, policy, o).status == Exit(Stop)
  {
    hide Day, OnSearchGrid, Valid;
    var s, policy := FreeTrading(), TenPercentStop();
    FallIsValid(9.9);
    var gapped := FirstDayOfFall(9.9);
    SecondDayOfFall(9.9, gapped);
    assert Simulate(s, policy, Fall(9.9)).status == Exit(StopGap);
    FallIsValid(4.9);
    var locked := FirstDayOfFall(4.9);
    SecondDayOfFall(4.9, locked);
    assert Simulate(s, policy, Fall(4.9)).status == Exit(Stop);
  }
}
