/** What a single order costs, how large it is, and when no order can be filled: in prices, rates and whole cents. */
module Costs {
  import opened Money
  import opened Market
  import opened Trading
  import opened Simulator

  // ---------- a day on which nothing can be sold ----------

  /** The daily limit of STAR and ChiNext codes is 20%, of all others 10%. */
  function LowerLimit(code: string, previous: real): real {
    if |code| >= 4 && (code[..4] == "sh68" || code[..4] == "sz30") then previous * 0.8 else previous * 0.9
  }

  /**
   * Nothing can be sold on a day without volume, nor on a day with one price that lies within half a cent of the lower
   * limit rounded to a cent, or below it.
   */
  lemma SellBlockedIff(b: Bar, previous: real, code: string, cents: int)
    requires cents as real - 0.5 <= LowerLimit(code, previous) * 100.0 < cents as real + 0.5
    ensures SellBlocked(b, previous, code) <==>
      b.volume <= 0.0 || (b.high - b.low < 0.005 && b.low <= cents as real / 100.0 + 0.005)
  {
    PrefixIs("sh68", code);
    PrefixIs("sz30", code);
    assert RoundHalf(LowerLimit(code, previous) * 100.0) == cents;
  }

  lemma PrefixIs(part: string, code: string)
    ensures part <= code <==> |code| >= |part| && code[..|part|] == part
  {
  }

  // ---------- fees ----------

  /** The whole number of cents that covers the larger of a rate and a minimum, up to the slack. */
  ghost predicate Covers(fee: real, amount: real, rate: real, minimum: real) {
    && OnGrid(fee)
    && fee >= Times(amount, rate) - 0.000000001 && fee >= minimum - 0.000000001
    && (fee - 0.01 < Times(amount, rate) - 0.000000001 || fee - 0.01 < minimum - 0.000000001)
  }

  /** There is one such fee, the one that is charged. */
  lemma ChargeIs(fee: real, amount: real, rate: real, minimum: real)
    ensures Charge(amount, rate, minimum) == fee <==> Covers(fee, amount, rate, minimum)
  {
    hide Times, OnGrid, Charge;
    var c := Charge(amount, rate, minimum);
    if Covers(fee, amount, rate, minimum) {
      if c < fee { GridGap(c, fee); }
      if fee < c { GridGap(fee, c); }
    }
  }

  /** An order costs its price times its shares, a commission with a minimum, and a transfer fee. */
  lemma CostIs(s: Strategy, price: real, n: nat) returns (commission: real, transfer: real)
    ensures Covers(commission, Times(price, n as real), s.commissionRate, s.minCommission)
    ensures Covers(transfer, Times(price, n as real), s.transferRate, 0.0)
    ensures PurchaseCost(s, price, n) == Times(price, n as real) + commission + transfer
  {
    hide Times, Charge, Covers;
    var a := Times(price, n as real);
    commission, transfer := Charge(a, s.commissionRate, s.minCommission), Charge(a, s.transferRate, 0.0);
    ChargeIs(commission, a, s.commissionRate, s.minCommission);
    ChargeIs(transfer, a, s.transferRate, 0.0);
  }

  /** A sale brings its price times its shares, less the two fees of an order and the stamp duty. */
  lemma ProceedsAre(s: Strategy, price: real, n: nat) returns (commission: real, transfer: real, stamp: real)
    requires n > 0
    ensures Covers(commission, Times(price, n as real), s.commissionRate, s.minCommission)
    ensures Covers(transfer, Times(price, n as real), s.transferRate, 0.0)
    ensures Covers(stamp, Times(price, n as real), s.sellStampRate, 0.0)
    ensures Proceeds(s, price, n) == Times(price, n as real) - commission - transfer - stamp
  {
    hide Times, Charge, Covers;
    var a := Times(price, n as real);
    commission, transfer := Charge(a, s.commissionRate, s.minCommission), Charge(a, s.transferRate, 0.0);
    stamp := Charge(a, s.sellStampRate, 0.0);
    ChargeIs(commission, a, s.commissionRate, s.minCommission);
    ChargeIs(transfer, a, s.transferRate, 0.0);
    ChargeIs(stamp, a, s.sellStampRate, 0.0);
  }

  // ---------- prices after slippage ----------

  /** A buy order pays the open raised by the slippage, rounded up to a cent. */
  lemma BuyPriceIs(s: Strategy, b: Bar)
    ensures OnGrid(BuyPrice(s, b))
    ensures Times(b.open, 1.0 + s.slippageRate) - 0.0000000001 <= BuyPrice(s, b)
      < Times(b.open, 1.0 + s.slippageRate) + 0.01
  {
    hide Times;
  }

  /** A sale is marked at the price lowered by the slippage, rounded down to a cent. */
  lemma MarkIs(s: Strategy, price: real)
    ensures OnGrid(Mark(s, price))
    ensures Times(price, 1.0 - s.slippageRate) - 0.01 < Mark(s, price)
      <= Times(price, 1.0 - s.slippageRate) + 0.0000000001
  {
    hide Times;
  }

  /** A sale on the market is filled at that price, but never below the low of the day. */
  lemma FillAtIs(s: Strategy, b: Bar, price: real)
    ensures FillAt(s, b, price) == if Mark(s, price) < b.low then b.low else Mark(s, price)
  {
  }

  // ---------- the size of an order ----------

  /** Orders of STAR codes start at two hundred shares and grow by one; others are whole hundreds. */
  predicate Tradable(code: string, n: nat) {
    if |code| >= 4 && code[..4] == "sh68" then 200 <= n else 100 <= n && n % 100 == 0
  }

  /** The budget pays for the shares, and with the slack for their fees. */
  ghost predicate Fits(s: Strategy, code: string, price: real, budget: real, n: nat) {
    Tradable(code, n) && Times(price, n as real) <= budget && PurchaseCost(s, price, n) <= budget + 0.00000001
  }

  /** The largest order that fits. */
  ghost predicate Largest(s: Strategy, code: string, price: real, budget: real, n: nat) {
    Fits(s, code, price, budget, n) && forall m: nat :: Fits(s, code, price, budget, m) ==> m <= n
  }

  lemma {:induction false} AffordableSteps(s: Strategy, price: real, n: int, minimum: int, step: int, budget: real)
    requires minimum >= 0 && (step == 1 || step == 100) && n % step == 0
    ensures Affordable(s, price, n, minimum, step, budget) % step == 0
    decreases n
  {
    hide PurchaseCost;
    if n >= minimum && PurchaseCost(s, price, n) > budget + PRICE_SLACK {
      AffordableSteps(s, price, n - step, minimum, step, budget);
    }
  }

  /** The search starts at the largest tradable number of shares that the budget pays for without fees. */
  lemma StartIs(price: real, budget: real, step: int, n: int)
    requires price > 0.0 && (step == 1 || step == 100) && n >= 1 && n % step == 0
    ensures var start := Quotient(Trunc(budget / price), step) * step;
      start % step == 0 && (n <= start <==> Times(n as real, price) <= budget)
  {
    hide Times;
    var q := budget / price;
    Ratio(budget, price, n as real);
    assert q < n as real <==> budget < Times(n as real, price);
    WholeSteps(q, step, n);
  }

  lemma WholeSteps(q: real, step: int, n: int)
    requires (step == 1 || step == 100) && n >= 1 && n % step == 0
    ensures var start := Quotient(Trunc(q), step) * step;
      start % step == 0 && (n <= start <==> n as real <= q)
  {
    var t := Trunc(q);
    if q >= 0.0 {
      assert n as real <= q <==> n <= t;
    } else {
      assert t <= 0;
    }
  }

  lemma BoardIs(code: string, n: nat)
    ensures var (minimum, step) := Board(code);
      (step == 1 || step == 100) && 100 <= minimum && (Tradable(code, n) <==> minimum <= n && n % step == 0)
  {
    PrefixIs("sh68", code);
  }

  /** The order that the search ends at is the largest that fits; below the minimum none does. */
  lemma OrderIsLargest(s: Strategy, code: string, b: Bar, budget: real)
    requires s.Valid() && b.open >= 0.01
    ensures var n := OrderSize(s, code, b, budget);
      && (n >= Board(code).0 ==> Largest(s, code, BuyPrice(s, b), budget, n))
      && (n < Board(code).0 ==> forall m: nat :: !Fits(s, code, BuyPrice(s, b), budget, m))
  {
    hide PurchaseCost, Affordable, Quotient, Trunc, Board, Tradable;
    var price := BuyPrice(s, b);
    BuyPricePositive(s, b);
    var (minimum, step) := Board(code);
    BoardIs(code, 0);
    var start := Quotient(Trunc(budget / price), step) * step;
    StartIs(price, budget, step, step);
    AffordableSteps(s, price, start, minimum, step, budget);
    var n := Affordable(s, price, start, minimum, step, budget);
    forall m: nat | Fits(s, code, price, budget, m)
      ensures m <= n && minimum <= n
    {
      BoardIs(code, m);
      StartIs(price, budget, step, m);
      TimesCommutes(price, m as real);
      StepsApart(start, m, step);
    }
    if n >= minimum {
      BoardIs(code, n);
      StartIs(price, budget, step, n);
      TimesCommutes(price, n as real);
    }
  }

  lemma StepsApart(start: int, m: int, step: int)
    requires (step == 1 || step == 100) && start % step == 0 && m % step == 0
    ensures (start - m) % step == 0
  {
  }

  /**
   * A buy order is filled exactly when some order fits the budget and its price is no more than the high of the day, up
   * to the slack; it is then the largest that fits, for its cost, and today's lot joins the position.
   */
  lemma BoughtIff(s: Strategy, h: Holding, code: string, b: Bar, day: int, budget: real)
    requires s.Valid() && b.open >= 0.01
    ensures var r, price := Bought(s, h, code, b, day, budget), BuyPrice(s, b);
      && (r.Some? <==> price <= b.high + 0.00000001 && exists n: nat :: Fits(s, code, price, budget, n))
      && (r.Some? ==> var (h', fill) := r.value;
            && Largest(s, code, price, budget, fill.shares)
            && fill == Fill(b.date, Buy, fill.shares, price, PurchaseCost(s, price, fill.shares), Signal)
            && h' == Holding(h.lots + [Lot(fill.shares, day)], h.invested + fill.cash, h.realized))
  {
    hide OrderSize, Fits, PurchaseCost;
    OrderIsLargest(s, code, b, budget);
    BoardIs(code, 0);
  }
}
