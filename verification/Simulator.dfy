/** The day-by-day simulation of one trade. */
module Simulator {
  import opened Money
  import opened Market
  import opened Trading
  import Signals

  datatype Policy = Policy(rule: Signals.Rule, batches: int, horizon: int, target: real, stop: real)
  {
    /** `stop == 0` switches the stop off. */
    ghost predicate Valid() {
      1 <= batches && 0.0 <= stop <= 20.0
    }
  }

  datatype Split = Training | Later

  /** The code and signal date that name a trade. */
  datatype TradeId = TradeId(code: string, date: int)

  datatype Status = EntrySkipped | Unresolved | MissingAddContext | Invalid(why: string) | Exit(cause: Cause)

  datatype Trade = Trade(
    id: TradeId,
    code: string,
    name: string,
    signalDate: int,
    split: Split,
    status: Status,
    entryDate: Option<int>,
    exitDate: Option<int>,
    netPct: real,
    invested: real,
    batchesFilled: int,
    holdingDays: int,
    entryCloseNetPct: real,
    targetHit: bool,
    targetDay: int,
    stopTriggered: bool,
    stopTriggerDate: Option<int>,
    ambiguous: bool,
    blockedByT1: bool,
    targetBlockedT1: bool,
    stopExceeded: bool,
    fills: seq<Fill>)

  /** Bar 0 is the signal, bar 1 the entry, bar 2 the first day on which shares can be sold. */
  datatype Opportunity = Opportunity(
    id: TradeId,
    code: string,
    name: string,
    split: Split,
    bars: seq<Bar>,
    events: seq<bool>,
    invalid: map<int, string>,
    unknownAdds: set<int>)
  {
    ghost predicate Valid() {
      && |bars| >= 1
      && |events| == |bars|
      && ValidBars(bars)
      && (forall i :: 0 <= i < |bars| ==> InCents(bars[i]))
    }
  }

  ghost predicate InCents(b: Bar) {
    OnGrid(b.open) && OnGrid(b.high) && OnGrid(b.low) && OnGrid(b.close)
  }

  lemma AtLeastACent(p: real)
    requires OnGrid(p) && 0.0 < p
    ensures 0.01 <= p
  {
    GridGap(0.0, p);
  }

  predicate OnePrice(b: Bar) {
    b.high - b.low < 0.005
  }

  /** Rounds half away from zero, for the positive prices it is used on. */
  function RoundHalf(x: real): int {
    (x + 0.5).Floor
  }

  predicate SellBlocked(b: Bar, previous: real, code: string) {
    var limit := if "sh68" <= code || "sz30" <= code then 0.20 else 0.10;
    b.volume <= 0.0 || (OnePrice(b) && b.low <= RoundHalf(previous * (1.0 - limit) * 100.0) as real / 100.0 + 0.005)
  }

  /** What the loop over the days carries along. */
  datatype State = State(h: Holding, t: Trade, stopCause: Cause)

  /** How a part of a day ends: the trade is returned, the day is over, or the day goes on. */
  datatype Flow = Return(t: Trade) | Next(st: State) | Go(st: State)

  function Start(o: Opportunity): State
    requires |o.bars| >= 1
  {
    State(
      Holding([], 0.0, 0.0),
      Trade(o.id, o.code, o.name, o.bars[0].date, o.split, EntrySkipped, None, None,
            0.0, 0.0, 0, 0, 0.0, false, 0, false, None, false, false, false, false, []),
      Stop)
  }

  function FillAt(s: Strategy, b: Bar, price: real): real {
    Max(b.low, Mark(s, price))
  }

  function Finish(s: Strategy, policy: Policy, h: Holding, t: Trade, b: Bar, i: int, cause: Cause): Trade
    requires h.invested != 0.0
  {
    var net := Net(s, h, b.close);
    var hit := net >= policy.target - NET_SLACK;
    t.(status := Exit(cause), exitDate := Some(b.date), holdingDays := i - 1, netPct := net, targetHit := hit,
       targetDay := if hit then i - 1 else t.targetDay,
       stopExceeded := policy.stop > 0.0 && net <= -policy.stop + NET_SLACK)
  }

  function SellAll(s: Strategy, st: State, b: Bar, i: int, price: real, cause: Cause): State {
    var (h, fill) := Sold(s, st.h, b, i, price, cause);
    st.(h := h, t := st.t.(fills := st.t.fills + [fill]))
  }

  /** The position is empty before the first day and holds shares on every later one. */
  ghost predicate Ready(o: Opportunity, i: int, st: State) {
    && 1 <= i
    && (i == 1 ==> |o.bars| >= 1 && st == Start(o))
    && (i > 1 ==> Held(st.h))
  }

  ghost predicate Valid(s: Strategy, policy: Policy, o: Opportunity) {
    s.Valid() && policy.Valid() && o.Valid()
  }

  /** Decisions at the opening price, before any new purchase. */
  function Opening(s: Strategy, policy: Policy, o: Opportunity, i: int, st: State): (f: Flow)
    requires Valid(s, policy, o) && i < |o.bars| && |o.bars| >= 1 && Ready(o, i, st)
    ensures f.Go? ==> f.st.h == st.h && (i == 1 ==> f.st == st)
    ensures f.Next? ==> i > 1 && Held(f.st.h)
  {
    var b := o.bars[i];
    var blocked := SellBlocked(b, o.bars[i - 1].close, o.code);
    if i in o.invalid then Return(st.t.(status := Invalid(o.invalid[i])))
    else
      var all, available := All(st.h), Shares(st.h.lots, i, true);
      if all == 0 then Go(st)
      else
        var t := st.t.(holdingDays := i - 1);
        var gapped := !t.stopTriggered && policy.stop > 0.0 && b.open <= StopPrice(s, st.h, policy.stop, b.open);
        var st1 := if gapped
                   then State(st.h, t.(stopTriggered := true, stopTriggerDate := Some(b.date)), StopGap)
                   else st.(t := t);
        if st1.t.stopTriggered then
          var st2 := if !blocked && available > 0 then SellAll(s, st1, b, i, FillAt(s, b, b.open), st1.stopCause)
            else st1;
          if All(st2.h) == 0 then Return(Finish(s, policy, st2.h, st2.t, b, i, st2.stopCause)) else Next(st2)
        else if !blocked && available == all && Net(s, st1.h, Mark(s, b.open)) >= policy.target then
          var st2 := SellAll(s, st1.(t := st1.t.(targetHit := true, targetDay := i - 1)), b, i, FillAt(s, b, b.open),
            Target);
          Return(Finish(s, policy, st2.h, st2.t, b, i, Target))
        else Go(st1)
  }

  function GapPct(b: Bar, previous: Bar): real
    requires previous.close != 0.0
  {
    Abs(b.open / previous.close - 1.0) * 100.0
  }

  function Budget(s: Strategy, policy: Policy, invested: real): (r: real)
    requires policy.batches >= 1
    ensures r <= s.tradeCash - invested && r <= s.tradeCash / policy.batches as real
  {
    Min(s.tradeCash / policy.batches as real, s.tradeCash - invested)
  }

  /** A filled buy order always adds at least a hundred shares and costs money. */
  lemma BoughtAdds(s: Strategy, h: Holding, code: string, b: Bar, day: int, budget: real)
    requires s.Valid() && b.open >= 0.01 && Bought(s, h, code, b, day, budget).Some?
    ensures var (h', fill) := Bought(s, h, code, b, day, budget).value;
            && h' == Holding(h.lots + [Lot(fill.shares, day)], h.invested + fill.cash, h.realized)
            && fill.date == b.date && fill.side == Buy && fill.reason == Signal
            && fill.shares >= 100 && fill.cash >= 0.01 * fill.shares as real
            && fill.cash <= budget + PRICE_SLACK
            && All(h') == All(h) + fill.shares
  {
    hide PurchaseCost, BuyPrice, Times;
    var n := OrderSize(s, code, b, budget);
    var price := BuyPrice(s, b);
    BuyPricePositive(s, b);
    AtLeastACent(price);
    CostCoversPrice(s, price, n);
    TimesBounds(price, n as real);
    SharesAppend(h.lots, Lot(n, day), 0, false);
  }

  /** The entry on the first day, and additions on later signals. */
  function Entry(s: Strategy, policy: Policy, o: Opportunity, i: int, st: State): (f: Flow)
    requires Valid(s, policy, o) && 1 <= i < |o.bars| && |o.bars| >= 1
    requires (i == 1 && st == Start(o)) || (i > 1 && Held(st.h))
    ensures !f.Next?
    ensures f.Go? ==> Held(f.st.h)
  {
    var b, previous := o.bars[i], o.bars[i - 1];
    if st.t.batchesFilled < policy.batches && (i == 1 || (i < policy.horizon + 1 && o.events[i - 1])) then
      if i in o.unknownAdds then Return(st.t.(status := MissingAddContext))
      else
        AtLeastACent(b.open);
        var order := if b.volume > 0.0 && !OnePrice(b) && GapPct(b, previous) <= s.maxEntryGapPct
                     then Bought(s, st.h, o.code, b, i, Budget(s, policy, st.h.invested))
                     else None;
        if order.None? then
          if i == 1 then Return(st.t) else Go(st)
        else
          BoughtAdds(s, st.h, o.code, b, i, Budget(s, policy, st.h.invested));
          Go(Filled(st, order.value.0, order.value.1))
    else Go(st)
  }

  function Filled(st: State, h: Holding, fill: Fill): State {
    var t := st.t.(fills := st.t.fills + [fill], batchesFilled := st.t.batchesFilled + 1, invested := h.invested);
    st.(h := h, t := if t.entryDate.None? then t.(entryDate := Some(fill.date), status := Unresolved) else t)
  }

  /** The day's range: the stop comes before the target, the target before the time exit. */
  function Intraday(s: Strategy, policy: Policy, o: Opportunity, i: int, st: State): (f: Flow)
    requires Valid(s, policy, o) && 1 <= i < |o.bars| && |o.bars| >= 1 && Held(st.h)
    ensures !f.Go?
    ensures f.Next? ==> Held(f.st.h)
  {
    var b := o.bars[i];
    var blocked := SellBlocked(b, o.bars[i - 1].close, o.code);
    var t0 := if i == 1 then st.t.(entryCloseNetPct := Net(s, st.h, Mark(s, b.close))) else st.t;
    var all, available := All(st.h), Shares(st.h.lots, i, true);
    var highHit := Net(s, st.h, Mark(s, b.high)) >= policy.target - NET_SLACK;
    var stopHit := policy.stop > 0.0 && b.low <= StopPrice(s, st.h, policy.stop, b.open);
    var st1 := st.(t := if highHit && available < all then t0.(targetBlockedT1 := true) else t0);
    if stopHit then
      var st2 := st1.(t := st1.t.(stopTriggered := true, stopTriggerDate := Some(b.date),
                                  ambiguous := highHit && available == all, blockedByT1 := available < all));
      var st3 := if !blocked && available > 0
                 then SellAll(s, st2, b, i, FillAt(s, b, Min(b.high, StopPrice(s, st.h, policy.stop, b.open))),
                   st2.stopCause)
                 else st2;
      if All(st3.h) == 0 then Return(Finish(s, policy, st3.h, st3.t, b, i, st3.stopCause)) else Next(st3)
    else if !blocked && highHit && available == all then
      var st2 := SellAll(s, st1.(t := st1.t.(targetHit := true, targetDay := i - 1)), b, i,
        Price(s, st.h, policy.target, b.open), Target);
      Return(Finish(s, policy, st2.h, st2.t, b, i, Target))
    else if i == policy.horizon + 1 && !blocked && available == all then
      var st2 := SellAll(s, st1, b, i, FillAt(s, b, b.close), Timeout);
      Return(Finish(s, policy, st2.h, st2.t, b, i, Timeout))
    else Next(st1)
  }

  function Day(s: Strategy, policy: Policy, o: Opportunity, i: int, st: State): (f: Flow)
    requires Valid(s, policy, o) && i < |o.bars| && |o.bars| >= 1 && Ready(o, i, st)
    ensures !f.Go?
    ensures f.Next? ==> Held(f.st.h)
  {
    var morning := Opening(s, policy, o, i, st);
    if !morning.Go? then morning else
      var entered := Entry(s, policy, o, i, morning.st);
      if !entered.Go? then entered else Intraday(s, policy, o, i, entered.st)
  }

  function Days(s: Strategy, policy: Policy, o: Opportunity, i: int, st: State): Trade
    requires Valid(s, policy, o) && |o.bars| >= 1 && Ready(o, i, st)
    decreases |o.bars| - i
  {
    if i <= policy.horizon + 1 && i < |o.bars| then
      match Day(s, policy, o, i, st)
      case Return(t) => t
      case Next(st') => Days(s, policy, o, i + 1, st')
    else st.t
  }

  /** The trade that a policy makes of an opportunity. */
  function Simulate(s: Strategy, policy: Policy, o: Opportunity): Trade
    requires Valid(s, policy, o)
  {
    Days(s, policy, o, 1, Start(o))
  }
}
