/** One position: its lots, the two price searches, and buying and selling. */
module Trading {
  import opened Money
  import opened Market

  datatype Lot = Lot(shares: nat, bought: int)

  datatype Holding = Holding(lots: seq<Lot>, invested: real, realized: real)

  datatype Side = Buy | Sell

  /** Why an order was filled; an exit's cause is also the status of the finished trade. */
  datatype Cause = Signal | Target | Stop | StopGap | Timeout

  datatype Fill = Fill(date: int, side: Side, shares: nat, price: real, cash: real, reason: Cause)

  function Shares(lots: seq<Lot>, day: int, sellable: bool): nat {
    if lots == [] then 0 else
      var last := lots[|lots| - 1];
      Shares(lots[..|lots| - 1], day, sellable) + (if !sellable || last.bought < day then last.shares else 0)
  }

  function All(h: Holding): nat {
    Shares(h.lots, 0, false)
  }

  /** A position that still has shares to value. */
  ghost predicate Held(h: Holding) {
    h.invested > 0.0 && All(h) > 0
  }

  function Worth(s: Strategy, h: Holding, price: real): real {
    h.realized + Proceeds(s, price, All(h))
  }

  function Net(s: Strategy, h: Holding, price: real): real
    requires h.invested != 0.0
  {
    (Worth(s, h, price) / h.invested - 1.0) * 100.0
  }

  // ---------- net return and worth ----------

  /** The cash a position must be worth to show a net return of `goal` percent. */
  ghost function Need(h: Holding, goal: real): real {
    Times(1.0 + goal / 100.0, h.invested)
  }

  lemma Ratio(w: real, d: real, x: real)
    requires d > 0.0
    ensures w / d <= x <==> w <= Times(x, d)
    ensures w / d < x <==> w < Times(x, d)
  {
    var q := w / d;
    assert q * d == w;
    if q < x { assert (x - q) * d > 0.0; }
    if q > x { assert (q - x) * d > 0.0; }
  }

  lemma NetIsWorth(s: Strategy, h: Holding, price: real, goal: real)
    requires h.invested > 0.0
    ensures Net(s, h, price) < goal <==> Worth(s, h, price) < Need(h, goal)
    ensures Net(s, h, price) <= goal <==> Worth(s, h, price) <= Need(h, goal)
  {
    hide Worth, Times;
    Ratio(Worth(s, h, price), h.invested, 1.0 + goal / 100.0);
  }

  /** Net return on the cent grid never falls when the price rises. */
  lemma NetGridMonotone(s: Strategy, h: Holding, p: real, q: real)
    requires s.Valid() && h.invested > 0.0 && OnGrid(p) && OnGrid(q) && p <= q
    requires All(h) == 0 || All(h) >= 100
    ensures Net(s, h, p) <= Net(s, h, q)
  {
    hide Net, Need, Proceeds, OnGrid;
    GridMonotone(s, p, q, All(h));
    NetIsWorth(s, h, p, Net(s, h, q));
    NetIsWorth(s, h, q, Net(s, h, q));
  }

  /** A price from which on every net return reaches `goal`. */
  ghost function Reach(s: Strategy, h: Holding, goal: real): (r: real)
    ensures r >= 0.0
  {
    Max(0.0, (Need(h, goal) - h.realized + s.minCommission + 0.03) / 0.97)
  }

  lemma Reached(s: Strategy, h: Holding, goal: real, price: real)
    requires s.Valid() && Held(h) && Reach(s, h, goal) <= price
    ensures Net(s, h, price) >= goal
  {
    hide Times, Net, Need, RawProceeds, Proceeds;
    var a := Times(price, All(h) as real);
    TimesCommutes(price, All(h) as real);
    TimesBounds(All(h) as real, price);
    RoundingCost(s, price, All(h));
    RawSlope(s, 0.0, a);
    NothingSold(s);
    NetIsWorth(s, h, price, goal);
  }

  lemma NothingSold(s: Strategy)
    requires s.Valid()
    ensures RawProceeds(s, 0.0) == -s.minCommission
  {
    assert Times(0.0, s.commissionRate) == Times(0.0, s.transferRate) == Times(0.0, s.sellStampRate) == 0.0;
  }

  // ---------- the price search ----------

  ghost function DoublingsLeft(reach: real, hi: real): nat
    requires hi > 0.0
  {
    if reach <= hi then 0 else Ceil(reach / hi)
  }

  lemma DoublingDescends(reach: real, hi: real)
    requires 0.0 < hi < reach
    ensures DoublingsLeft(reach, 2.0 * hi) < DoublingsLeft(reach, hi)
  {
    var q := reach / hi;
    assert q * hi == reach;
    Ratio(reach, hi, 1.0);
    assert q > 1.0;
    if 2.0 * hi < reach {
      assert reach / (2.0 * hi) == q / 2.0;
      Ratio(reach, 2.0 * hi, 1.0);
    }
  }

  /** The upper bracket: the first doubling at which the goal is met. */
  function Bracket(s: Strategy, h: Holding, goal: real, hi: real): (top: real)
    requires s.Valid() && Held(h) && hi > 0.0
    ensures hi <= top && Net(s, h, top) >= goal
    decreases DoublingsLeft(Reach(s, h, goal), hi)
  {
    if Net(s, h, hi) < goal then
      assert DoublingsLeft(Reach(s, h, goal), 2.0 * hi) < DoublingsLeft(Reach(s, h, goal), hi) by {
        if Reach(s, h, goal) <= hi { Reached(s, h, goal, hi); }
        DoublingDescends(Reach(s, h, goal), hi);
      }
      Bracket(s, h, goal, 2.0 * hi)
    else hi
  }

  lemma BracketStep(s: Strategy, h: Holding, goal: real, hi: real)
    requires s.Valid() && Held(h) && hi > 0.0
    ensures Net(s, h, hi) >= goal ==> Bracket(s, h, goal, hi) == hi
    ensures Net(s, h, hi) < goal ==>
              && Bracket(s, h, goal, 2.0 * hi) == Bracket(s, h, goal, hi)
              && DoublingsLeft(Reach(s, h, goal), 2.0 * hi) < DoublingsLeft(Reach(s, h, goal), hi)
  {
    if Net(s, h, hi) < goal {
      if Reach(s, h, goal) <= hi { Reached(s, h, goal, hi); }
      DoublingDescends(Reach(s, h, goal), hi);
    }
  }

  /** A width after `rounds` halvings. */
  function Halved(width: real, rounds: nat): real
    decreases rounds
  {
    if rounds == 0 then width else Halved(width / 2.0, rounds - 1)
  }

  /** Halving keeps a bracket: its top passes the test, a bottom that moved fails it. */
  function Bisect(ok: real -> bool, lo: real, hi: real, rounds: nat): (r: (real, real))
    requires lo <= hi && ok(hi)
    ensures lo <= r.0 <= r.1 <= hi && ok(r.1)
    ensures r.0 == lo || !ok(r.0)
    ensures r.1 - r.0 == Halved(hi - lo, rounds)
    decreases rounds
  {
    if rounds == 0 then (lo, hi) else
      var mid := (lo + hi) / 2.0;
      assert mid - lo == hi - mid == (hi - lo) / 2.0;
      if ok(mid) then Bisect(ok, lo, mid, rounds - 1) else Bisect(ok, mid, hi, rounds - 1)
  }

  lemma BisectStep(ok: real -> bool, lo: real, hi: real, rounds: nat)
    requires lo <= hi && ok(hi)
    ensures rounds == 0 ==> Bisect(ok, lo, hi, rounds) == (lo, hi)
    ensures rounds > 0 ==>
              var mid := (lo + hi) / 2.0;
              Bisect(ok, lo, hi, rounds) == if ok(mid) then Bisect(ok, lo, mid, rounds - 1)
                else Bisect(ok, mid, hi, rounds - 1)
  {
  }

  predicate Meets(s: Strategy, h: Holding, goal: real, price: real) {
    h.invested != 0.0 && Net(s, h, price) >= goal
  }

  /** The test the search halves its bracket by. */
  function Test(s: Strategy, h: Holding, goal: real): real -> bool {
    x => Meets(s, h, goal, x)
  }

  const HALVINGS: nat := 48

  function Price(s: Strategy, h: Holding, goal: real, reference: real): real
    requires s.Valid() && Held(h) && reference > 0.0
  {
    var top := Bracket(s, h, goal, reference * 2.0);
    RoundUp(Bisect(Test(s, h, goal), 0.0, top, HALVINGS).1)
  }

  lemma PriceIs(s: Strategy, h: Holding, goal: real, reference: real)
    requires s.Valid() && Held(h) && reference > 0.0
    ensures var top := Bracket(s, h, goal, reference * 2.0);
      Price(s, h, goal, reference) == RoundUp(Bisect(Test(s, h, goal), 0.0, top, HALVINGS).1)
  {
  }

  /** One halving of the price search. */
  lemma HalvingStep(s: Strategy, h: Holding, goal: real, lo: real, hi: real, rounds: nat)
    requires h.invested != 0.0 && lo <= hi && Test(s, h, goal)(hi)
    ensures rounds == 0 ==> Bisect(Test(s, h, goal), lo, hi, rounds) == (lo, hi)
    ensures rounds > 0 ==>
      var ok, mid := Test(s, h, goal), (lo + hi) / 2.0;
      && lo <= mid <= hi && (ok(mid) <==> Net(s, h, mid) >= goal)
      && Bisect(ok, lo, hi, rounds) == if ok(mid) then Bisect(ok, lo, mid, rounds - 1)
           else Bisect(ok, mid, hi, rounds - 1)
  {
    hide Net, Bisect;
    BisectStep(Test(s, h, goal), lo, hi, rounds);
  }

  lemma TestIs(s: Strategy, h: Holding, goal: real, price: real)
    requires h.invested != 0.0
    ensures Test(s, h, goal)(price) <==> Net(s, h, price) >= goal
  {
    hide Net;
  }

  /** The searched price misses the goal by less than three cents of fees and the rounding slack. */
  lemma PriceMeetsGoal(s: Strategy, h: Holding, goal: real, reference: real)
    requires s.Valid() && Held(h) && reference > 0.0
    ensures Worth(s, h, Price(s, h, goal, reference)) > Need(h, goal) - 0.03 - 0.0000000001 * All(h) as real
    ensures OnGrid(Price(s, h, goal, reference))
  {
    var top := Bracket(s, h, goal, reference * 2.0);
    var hi := Bisect(Test(s, h, goal), 0.0, top, HALVINGS).1;
    NetIsWorth(s, h, hi, goal);
    SmallDrop(s, RoundUp(hi), hi, All(h));
  }

  /** The searched price is not needlessly high: a price that misses the goal lies just below it. */
  lemma PriceIsTight(s: Strategy, h: Holding, goal: real, reference: real) returns (below: real)
    requires s.Valid() && Held(h) && reference > 0.0
    ensures below == 0.0 || !Meets(s, h, goal, below)
    ensures Price(s, h, goal, reference) < below + 0.01 + Halved(Bracket(s, h, goal, reference * 2.0), HALVINGS)
  {
    var top := Bracket(s, h, goal, reference * 2.0);
    var r := Bisect(Test(s, h, goal), 0.0, top, HALVINGS);
    below := r.0;
  }

  lemma SmallDrop(s: Strategy, p: real, q: real, n: nat)
    requires s.Valid() && n > 0 && q <= p + 0.0000000001
    ensures Proceeds(s, p, n) > Proceeds(s, q, n) - 0.03 - 0.0000000001 * n as real
  {
    hide Times, Proceeds;
    if p <= q {
      TimesBounds(q - p, n as real);
      ProceedsGain(s, p, q, n);
    } else {
      TimesBounds(p - q, n as real);
      ProceedsGain(s, q, p, n);
    }
  }

  // ---------- the stop price ----------

  /** The share of a price that slippage leaves. */
  function Keep(s: Strategy): real {
    1.0 - s.slippageRate
  }

  /** What a price brings after `keep` of it survives slippage, in whole cents. */
  function Slipped(price: real, keep: real): (r: real)
    ensures OnGrid(r) && Times(price, keep) - 0.01 < r
  {
    RoundDown(Times(price, keep))
  }

  lemma SlippedMonotone(p: real, q: real, keep: real)
    requires 0.0 <= keep && p <= q
    ensures Slipped(p, keep) <= Slipped(q, keep)
  {
    hide Times, RoundDown;
    TimesMonotone(p, q, keep);
    RoundDownMonotone(Times(p, keep), Times(q, keep));
  }

  /** The fill price of a sale triggered at `price`, before the day's low is considered. */
  function Mark(s: Strategy, price: real): real {
    Slipped(price, Keep(s))
  }

  lemma MarkMonotone(s: Strategy, p: real, q: real)
    requires s.Valid() && p <= q
    ensures Mark(s, p) <= Mark(s, q)
  {
    SlippedMonotone(p, q, Keep(s));
  }

  /** Slack of the comparisons of net returns. */
  const NET_SLACK := 0.000000001

  predicate Breached(s: Strategy, h: Holding, loss: real, trigger: real)
    requires h.invested != 0.0
  {
    Net(s, h, Mark(s, trigger)) <= -loss + NET_SLACK
  }

  ghost function StopReach(s: Strategy, h: Holding, loss: real): real {
    (Reach(s, h, -loss + 1.0) + 0.01) / 0.99
  }

  lemma NotBreachedAbove(s: Strategy, h: Holding, loss: real, trigger: real)
    requires s.Valid() && Held(h) && StopReach(s, h, loss) <= trigger
    ensures !Breached(s, h, loss, trigger)
  {
    hide Times, Slipped, Reach, Net;
    TimesCommutes(trigger, Keep(s));
    TimesBounds(Keep(s), trigger);
    Reached(s, h, -loss + 1.0, Mark(s, trigger));
  }

  ghost function TicksLeft(reach: real, trigger: real): nat {
    if reach <= trigger then 0 else Ceil((reach - trigger) * 100.0)
  }

  lemma TickDescends(reach: real, trigger: real)
    requires OnGrid(trigger) && trigger < reach
    ensures TicksLeft(reach, RoundUp(trigger + 0.01)) < TicksLeft(reach, trigger)
  {
    NextCent(trigger);
    assert (reach - trigger) * 100.0 == (reach - (trigger + 0.01)) * 100.0 + 1.0;
  }

  /** Every grid price from `from` up to, but not including, `to` fails. */
  ghost predicate AllBreached(s: Strategy, h: Holding, loss: real, from: real, to: real)
    requires h.invested != 0.0
  {
    forall q :: OnGrid(q) && from <= q < to ==> Breached(s, h, loss, q)
  }

  lemma BreachedFrom(s: Strategy, h: Holding, loss: real, from: real, to: real)
    requires h.invested != 0.0 && OnGrid(from) && Breached(s, h, loss, from)
    requires AllBreached(s, h, loss, RoundUp(from + 0.01), to)
    ensures AllBreached(s, h, loss, from, to)
  {
    hide Breached, OnGrid;
    NextCent(from);
    forall q | OnGrid(q) && from <= q < to ensures Breached(s, h, loss, q) {
      if from < q {
        GridGap(from, q);
      }
    }
  }

  /** The first grid price from `trigger` on at which a marked sale stays inside the loss. */
  function TickUp(s: Strategy, h: Holding, loss: real, trigger: real): (r: real)
    requires s.Valid() && Held(h) && OnGrid(trigger)
    ensures OnGrid(r) && trigger <= r && !Breached(s, h, loss, r)
    ensures AllBreached(s, h, loss, trigger, r)
    decreases TicksLeft(StopReach(s, h, loss), trigger)
  {
    if Breached(s, h, loss, trigger) then
      assert TicksLeft(StopReach(s, h, loss), RoundUp(trigger + 0.01)) < TicksLeft(StopReach(s, h, loss), trigger) by {
        if StopReach(s, h, loss) <= trigger { NotBreachedAbove(s, h, loss, trigger); }
        TickDescends(StopReach(s, h, loss), trigger);
      }
      assert RoundUp(trigger + 0.01) == trigger + 0.01 by { NextCent(trigger); }
      var r := TickUp(s, h, loss, RoundUp(trigger + 0.01));
      assert AllBreached(s, h, loss, trigger, r) by { BreachedFrom(s, h, loss, trigger, r); }
      r
    else trigger
  }

  lemma TickStep(s: Strategy, h: Holding, loss: real, trigger: real)
    requires s.Valid() && Held(h) && OnGrid(trigger) && Breached(s, h, loss, trigger)
    ensures TickUp(s, h, loss, RoundUp(trigger + 0.01)) == TickUp(s, h, loss, trigger)
    ensures TicksLeft(StopReach(s, h, loss), RoundUp(trigger + 0.01)) < TicksLeft(StopReach(s, h, loss), trigger)
  {
    if StopReach(s, h, loss) <= trigger { NotBreachedAbove(s, h, loss, trigger); }
    TickDescends(StopReach(s, h, loss), trigger);
  }

  function StopPrice(s: Strategy, h: Holding, loss: real, reference: real): (r: real)
    requires s.Valid() && Held(h) && reference > 0.0
    ensures OnGrid(r) && !Breached(s, h, loss, r)
  {
    TickUp(s, h, loss, RoundUp(Price(s, h, -loss, reference) / Keep(s)))
  }

  // ---------- buying and selling ----------

  function Trunc(x: real): int {
    if x < 0.0 then -((-x).Floor) else x.Floor
  }

  /** Integer division that truncates toward zero. */
  function Quotient(a: int, b: int): int
    requires b > 0
  {
    if a < 0 then -((-a) / b) else a / b
  }

  /** The smallest order and the order step of a board; STAR codes trade in single shares from 200 on. */
  function Board(code: string): (int, int) {
    if "sh68" <= code then (200, 1) else (100, 100)
  }

  lemma TimesPositive(x: int, y: int)
    requires 0 < y
    ensures 1 <= x ==> y <= x * y
    ensures x <= 0 ==> x * y <= 0
    ensures x <= -1 ==> x * y <= -y
  {
    if 1 <= x {
      assert (x - 1) * y >= 0;
    } else if x <= -1 {
      assert (-1 - x) * y >= 0;
    }
  }

  lemma NoRemainder(times: int, step: int, r: int)
    requires 0 <= r < step && times * step == r
    ensures r == 0
  {
    TimesPositive(times, step);
  }

  lemma Distribute(q: int, p: int, step: int)
    ensures (q - p - 1) * step == q * step - p * step - step
  {
  }

  lemma NextStep(n: int, k: int, step: int)
    requires 0 < step && k < n && (n - k) % step == 0
    ensures k <= n - step && (n - step - k) % step == 0
  {
    var d := n - k;
    var p, q, r := (d - step) / step, d / step, (d - step) % step;
    assert d == q * step && d - step == p * step + r;
    Distribute(q, p, step);
    NoRemainder(q - p - 1, step, r);
    TimesPositive(q, step);
    assert n - step - k == d - step;
  }

  /** No order from above `m` to `n`, in steps below `n`, is within the budget. */
  ghost predicate NoneAffordable(s: Strategy, price: real, m: int, n: int, step: int, budget: real)
    requires step > 0
  {
    forall k: nat :: m < k <= n && (n - k) % step == 0 ==> PurchaseCost(s, price, k) > budget + PRICE_SLACK
  }

  lemma DearerAbove(s: Strategy, price: real, m: int, n: nat, step: int, budget: real)
    requires step > 0 && PurchaseCost(s, price, n) > budget + PRICE_SLACK
    requires NoneAffordable(s, price, m, n - step, step, budget)
    ensures NoneAffordable(s, price, m, n, step, budget)
  {
    hide PurchaseCost;
    forall k: nat | m < k <= n && (n - k) % step == 0 ensures PurchaseCost(s, price, k) > budget + PRICE_SLACK {
      if k < n {
        NextStep(n, k, step);
      }
    }
  }

  /** The largest order at or below `n`, in steps, that the budget pays for; below `minimum` none was found. */
  function Affordable(s: Strategy, price: real, n: int, minimum: int, step: int, budget: real): (m: int)
    requires minimum >= 0 && step > 0
    ensures m <= n
    ensures m >= minimum ==> PurchaseCost(s, price, m) <= budget + PRICE_SLACK
    ensures NoneAffordable(s, price, m, n, step, budget)
    decreases n
  {
    if n >= minimum && PurchaseCost(s, price, n) > budget + PRICE_SLACK then
      var m := Affordable(s, price, n - step, minimum, step, budget);
      DearerAbove(s, price, m, n, step, budget);
      m
    else n
  }

  function BuyPrice(s: Strategy, b: Bar): (r: real)
    ensures OnGrid(r)
  {
    RoundUp(Times(b.open, 1.0 + s.slippageRate))
  }

  lemma BuyPricePositive(s: Strategy, b: Bar)
    requires s.Valid() && b.open >= 0.01
    ensures BuyPrice(s, b) > 0.0
  {
    hide Times;
    TimesCommutes(b.open, 1.0 + s.slippageRate);
    TimesBounds(1.0 + s.slippageRate, b.open);
  }

  function OrderSize(s: Strategy, code: string, b: Bar, budget: real): int
    requires s.Valid() && b.open >= 0.01
  {
    var (minimum, step) := Board(code);
    BuyPricePositive(s, b);
    Affordable(s, BuyPrice(s, b), Quotient(Trunc(budget / BuyPrice(s, b)), step) * step, minimum, step, budget)
  }

  /** The position and the fill after a buy order, or nothing when the order is not possible. */
  function Bought(s: Strategy, h: Holding, code: string, b: Bar, day: int, budget: real): (r: Option<(Holding, Fill)>)
    requires s.Valid() && b.open >= 0.01
  {
    var n := OrderSize(s, code, b, budget);
    var price := BuyPrice(s, b);
    if n < Board(code).0 || price > b.high + PRICE_SLACK then None else
      var cost := PurchaseCost(s, price, n);
      Some((Holding(h.lots + [Lot(n, day)], h.invested + cost, h.realized), Fill(b.date, Buy, n, price, cost, Signal)))
  }

  function Unlocked(lots: seq<Lot>, day: int): seq<Lot> {
    seq(|lots|, i requires 0 <= i < |lots| => if lots[i].bought < day then lots[i].(shares := 0) else lots[i])
  }

  /** Everything bought before `day` is sold at `price`. */
  function Sold(s: Strategy, h: Holding, b: Bar, day: int, price: real, reason: Cause): (Holding, Fill) {
    var n := Shares(h.lots, day, true);
    var cash := Proceeds(s, price, n);
    (Holding(Unlocked(h.lots, day), h.invested, h.realized + cash), Fill(b.date, Sell, n, price, cash, reason))
  }

  lemma {:induction false} SharesAppend(lots: seq<Lot>, lot: Lot, day: int, sellable: bool)
    ensures Shares(lots + [lot], day, sellable)
         == Shares(lots, day, sellable) + (if !sellable || lot.bought < day then lot.shares else 0)
  {
    assert (lots + [lot])[..|lots|] == lots;
  }

  /** A sale takes exactly the sellable shares out of the position, and leaves nothing sellable. */
  lemma {:induction false} SharesSold(lots: seq<Lot>, day: int)
    ensures Shares(Unlocked(lots, day), 0, false) == Shares(lots, 0, false) - Shares(lots, day, true)
    ensures Shares(Unlocked(lots, day), day, true) == 0
  {
    if lots != [] {
      var rest := lots[..|lots| - 1];
      SharesSold(rest, day);
      assert Unlocked(lots, day)[..|lots| - 1] == Unlocked(rest, day);
    }
  }

  /** Once every lot is from an earlier day, everything is sellable. */
  lemma {:induction false} AllSellable(lots: seq<Lot>, day: int)
    requires forall k :: 0 <= k < |lots| ==> lots[k].bought < day
    ensures Shares(lots, day, true) == Shares(lots, 0, false)
  {
    if lots != [] {
      AllSellable(lots[..|lots| - 1], day);
    }
  }

  /** The mutable position of the simulator. */
  class Position {
    var lots: seq<Lot>
    var invested: real
    var realized: real

    ghost function View(): Holding
      reads this
    {
      Holding(lots, invested, realized)
    }

    constructor ()
      ensures View() == Holding([], 0.0, 0.0)
    {
      lots, invested, realized := [], 0.0, 0.0;
    }

    method Count(day: int, sellable: bool) returns (n: nat)
      ensures n == Shares(lots, day, sellable)
    {
      n := 0;
      for i := 0 to |lots|
        invariant n == Shares(lots[..i], day, sellable)
      {
        assert lots[..i + 1] == lots[..i] + [lots[i]];
        SharesAppend(lots[..i], lots[i], day, sellable);
        if !sellable || lots[i].bought < day {
          n := n + lots[i].shares;
        }
      }
      assert lots[..|lots|] == lots;
    }

    method NetAt(s: Strategy, price: real) returns (r: real)
      requires invested != 0.0
      ensures r == Net(s, View(), price)
    {
      var n := Count(0, false);
      r := ((realized + Proceeds(s, price, n)) / invested - 1.0) * 100.0;
    }

    method SearchPrice(s: Strategy, goal: real, reference: real) returns (r: real)
      requires s.Valid() && Held(View()) && reference > 0.0
      ensures r == Price(s, View(), goal, reference)
    {
      hide Net, Reach, RoundUp, DoublingsLeft, Bisect, Bracket, Price, Test, All;
      ghost var h := View();
      PriceIs(s, h, goal, reference);
      var lo, hi := 0.0, reference * 2.0;
      var net := NetAt(s, hi);
      while net < goal
        invariant hi > 0.0 && net == Net(s, h, hi)
        invariant Bracket(s, h, goal, hi) == Bracket(s, h, goal, reference * 2.0)
        decreases DoublingsLeft(Reach(s, h, goal), hi)
      {
        BracketStep(s, h, goal, hi);
        hi := 2.0 * hi;
        net := NetAt(s, hi);
      }
      BracketStep(s, h, goal, hi);
      ghost var ok, top := Test(s, h, goal), hi;
      TestIs(s, h, goal, hi);
      for n := 0 to HALVINGS
        invariant lo <= hi && ok(hi)
        invariant Bisect(ok, lo, hi, HALVINGS - n) == Bisect(ok, 0.0, top, HALVINGS)
      {
        HalvingStep(s, h, goal, lo, hi, HALVINGS - n);
        var mid := (lo + hi) / 2.0;
        net := NetAt(s, mid);
        if net >= goal {
          hi := mid;
        } else {
          lo := mid;
        }
      }
      HalvingStep(s, h, goal, lo, hi, 0);
      r := RoundUp(hi);
    }

    method SearchStop(s: Strategy, loss: real, reference: real) returns (trigger: real)
      requires s.Valid() && Held(View()) && reference > 0.0
      ensures trigger == StopPrice(s, View(), loss, reference)
    {
      hide Net, Price, RoundUp, StopReach, TicksLeft, Slipped;
      ghost var h := View();
      var price := SearchPrice(s, -loss, reference);
      trigger := RoundUp(price / Keep(s));
      var net := NetAt(s, Mark(s, trigger));
      while net <= -loss + NET_SLACK
        invariant OnGrid(trigger) && net == Net(s, h, Mark(s, trigger))
        invariant TickUp(s, h, loss, trigger) == StopPrice(s, h, loss, reference)
        decreases TicksLeft(StopReach(s, h, loss), trigger)
      {
        TickStep(s, h, loss, trigger);
        trigger := RoundUp(trigger + 0.01);
        net := NetAt(s, Mark(s, trigger));
      }
    }

    method BuyOrder(s: Strategy, code: string, b: Bar, day: int, budget: real) returns (r: Option<Fill>)
      requires s.Valid() && b.open >= 0.01
      modifies this
      ensures match Bought(s, old(View()), code, b, day, budget)
              case None => r == None && View() == old(View())
              case Some(bought) => r == Some(bought.1) && View() == bought.0
    {
      BuyPricePositive(s, b);
      var price := BuyPrice(s, b);
      var minimum, step := 100, 100;
      if "sh68" <= code {
        minimum, step := 200, 1;
      }
      var n := Quotient(Trunc(budget / price), step) * step;
      while n >= minimum && PurchaseCost(s, price, n) > budget + PRICE_SLACK
        invariant Affordable(s, price, n, minimum, step, budget) == OrderSize(s, code, b, budget)
        decreases n
      {
        n := n - step;
      }
      if n < minimum || price > b.high + PRICE_SLACK {
        return None;
      }
      var cost := PurchaseCost(s, price, n);
      lots := lots + [Lot(n, day)];
      invested := invested + cost;
      return Some(Fill(b.date, Buy, n, price, cost, Signal));
    }

    method SellOrder(s: Strategy, b: Bar, day: int, price: real, reason: Cause) returns (fill: Fill)
      modifies this
      ensures (View(), fill) == Sold(s, old(View()), b, day, price, reason)
    {
      hide Proceeds;
      var n := Count(day, true);
      for i := 0 to |lots|
        invariant |lots| == |old(lots)| && invested == old(invested) && realized == old(realized)
        invariant forall k :: 0 <= k < i ==> lots[k] == Unlocked(old(lots), day)[k]
        invariant forall k :: i <= k < |lots| ==> lots[k] == old(lots)[k]
      {
        if lots[i].bought < day {
          lots := lots[i := lots[i].(shares := 0)];
        }
      }
      assert lots == Unlocked(old(lots), day);
      var cash := Proceeds(s, price, n);
      realized := realized + cash;
      fill := Fill(b.date, Sell, n, price, cash, reason);
    }
  }
}
