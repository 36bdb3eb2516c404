/** Cent rounding and fees, in exact real arithmetic. */
module Money {
  /** Slack subtracted before a price is rounded up to a cent, and added before one is rounded down. */
  const PRICE_SLACK := 0.00000001
  /** Slack subtracted from a fee before it is rounded up to a cent. */
  const FEE_SLACK := 0.000000001

  /** The trading costs and cash limits that `Strategy.Validate` checks. */
  datatype Strategy = Strategy(
    tradeCash: real,
    commissionRate: real,
    minCommission: real,
    transferRate: real,
    sellStampRate: real,
    slippageRate: real,
    maxEntryGapPct: real)
  {
    ghost predicate Valid() {
      && 1000.0 <= tradeCash <= 100000000.0
      && 0.0 <= minCommission <= 100.0
      && 0.0 <= commissionRate <= 0.01
      && 0.0 <= transferRate <= 0.01
      && 0.0 <= sellStampRate <= 0.01
      && 0.0 <= slippageRate <= 0.01
      && 0.0 <= maxEntryGapPct <= 20.0
    }
  }

  function Max(x: real, y: real): real {
    if x < y then y else x
  }

  function Min(x: real, y: real): real {
    if y < x then y else x
  }

  function Abs(x: real): real {
    if x < 0.0 then -x else x
  }

  function Ceil(x: real): (k: int)
    ensures k as real - 1.0 < x <= k as real
  {
    -((-x).Floor)
  }

  /** A price that is a whole number of cents. */
  predicate OnGrid(p: real) {
    (p * 100.0).Floor as real == p * 100.0
  }

  /** The price of `k` cents. */
  function Cents(k: int): (p: real)
    ensures p * 100.0 == k as real
    ensures OnGrid(p)
  {
    k as real / 100.0
  }

  function RoundUp(v: real): (r: real)
    ensures OnGrid(r)
    ensures v - 0.0000000001 <= r < v + 0.01
    ensures OnGrid(v) ==> r == v
  {
    var x := v * 100.0;
    var k := Ceil(x - PRICE_SLACK);
    assert x == x.Floor as real ==> k == x.Floor by {
      if x == x.Floor as real {
        assert k as real < x.Floor as real + 1.0;
        assert k as real >= x.Floor as real - PRICE_SLACK;
      }
    }
    Cents(k)
  }

  function RoundDown(v: real): (r: real)
    ensures OnGrid(r)
    ensures v - 0.01 < r <= v + 0.0000000001
    ensures OnGrid(v) ==> r == v
  {
    var x := v * 100.0;
    var k := (x + PRICE_SLACK).Floor;
    assert x == x.Floor as real ==> k == x.Floor by {
      if x == x.Floor as real {
        assert k as real < x.Floor as real + 1.0;
        assert k as real > x.Floor as real - 1.0;
      }
    }
    Cents(k)
  }

  lemma NextCent(p: real)
    requires OnGrid(p)
    ensures RoundUp(p + 0.01) == p + 0.01
  {
    assert (p + 0.01) * 100.0 == ((p * 100.0).Floor + 1) as real;
  }

  /** Two different grid prices are at least a cent apart. */
  lemma GridGap(p: real, q: real)
    requires OnGrid(p) && OnGrid(q) && p < q
    ensures q - p >= 0.01
  {
    var a, b := (p * 100.0).Floor, (q * 100.0).Floor;
    assert a as real < b as real;
    assert (b - a) as real >= 1.0;
  }

  lemma RoundDownMonotone(u: real, v: real)
    requires u <= v
    ensures RoundDown(u) <= RoundDown(v)
  {
    assert (u * 100.0 + PRICE_SLACK).Floor <= (v * 100.0 + PRICE_SLACK).Floor;
  }

  // ---------- products, kept apart from the linear arithmetic around them ----------

  function Times(x: real, y: real): real {
    x * y
  }

  lemma NonNegative(x: real, y: real)
    requires 0.0 <= x && 0.0 <= y
    ensures 0.0 <= x * y
  {
  }

  lemma TimesDifference(x: real, y: real, z: real)
    ensures Times(y, z) - Times(x, z) == Times(y - x, z)
  {
  }

  lemma TimesMonotone(x: real, y: real, z: real)
    requires 0.0 <= z && x <= y
    ensures Times(x, z) <= Times(y, z)
    ensures 0.0 <= Times(y - x, z)
  {
    NonNegative(y - x, z);
    TimesDifference(x, y, z);
  }

  /** Bounds by constants, for a factor between constants. */
  lemma TimesBounds(x: real, z: real)
    requires 0.0 <= z
    ensures 0.01 <= x ==> 0.01 * z <= Times(x, z)
    ensures x <= 0.01 ==> Times(x, z) <= 0.01 * z
    ensures x <= 0.0000000001 ==> Times(x, z) <= 0.0000000001 * z
    ensures 0.99 <= x ==> 0.99 * z <= Times(x, z)
    ensures x <= 1.0 ==> Times(x, z) <= z
    ensures 1.0 <= x ==> z <= Times(x, z)
    ensures 0.0 <= x ==> 0.0 <= Times(x, z)
  {
    if 0.01 <= x { NonNegative(x - 0.01, z); }
    if x <= 0.01 { NonNegative(0.01 - x, z); }
    if x <= 0.0000000001 { NonNegative(0.0000000001 - x, z); }
    if 0.99 <= x { NonNegative(x - 0.99, z); }
    if x <= 1.0 { NonNegative(1.0 - x, z); }
    if 1.0 <= x { NonNegative(x - 1.0, z); }
  }

  lemma TimesCommutes(x: real, y: real)
    ensures Times(x, y) == Times(y, x)
  {
  }

  // ---------- fees ----------

  /** The fee before rounding. */
  function RawFee(amount: real, rate: real, minimum: real): real {
    Max(Times(amount, rate), minimum)
  }

  /** The fee that is charged: rounded up to the next cent. */
  function Charge(amount: real, rate: real, minimum: real): (c: real)
    ensures OnGrid(c)
    ensures RawFee(amount, rate, minimum) - FEE_SLACK <= c < RawFee(amount, rate, minimum) - FEE_SLACK + 0.01
  {
    Cents(Ceil((RawFee(amount, rate, minimum) - FEE_SLACK) * 100.0))
  }

  function PurchaseCost(s: Strategy, price: real, n: nat): real {
    var a := Times(price, n as real);
    a + Charge(a, s.commissionRate, s.minCommission) + Charge(a, s.transferRate, 0.0)
  }

  function Proceeds(s: Strategy, price: real, n: nat): real {
    if n == 0 then 0.0 else
      var a := Times(price, n as real);
      a - Charge(a, s.commissionRate, s.minCommission) - Charge(a, s.transferRate, 0.0) - Charge(a, s.sellStampRate,
        0.0)
  }

  /** The slack is smaller than a cent, so it never turns a fee negative. */
  lemma ChargeNotNegative(amount: real, rate: real, minimum: real)
    requires 0.0 <= minimum
    ensures Charge(amount, rate, minimum) >= 0.0
  {
    hide Times;
    var k := Ceil((RawFee(amount, rate, minimum) - FEE_SLACK) * 100.0);
    assert k > -1;
  }

  lemma CostCoversPrice(s: Strategy, price: real, n: nat)
    requires s.Valid()
    ensures PurchaseCost(s, price, n) >= Times(price, n as real)
  {
    hide Charge, Times;
    ChargeNotNegative(Times(price, n as real), s.commissionRate, s.minCommission);
    ChargeNotNegative(Times(price, n as real), s.transferRate, 0.0);
  }

  /** A fee of at most one percent grows by at most one percent of the growth of its base. */
  lemma FeeSlope(a: real, b: real, rate: real, minimum: real)
    requires a <= b && 0.0 <= rate <= 0.01
    ensures 0.0 <= RawFee(b, rate, minimum) - RawFee(a, rate, minimum) <= 0.01 * (b - a)
  {
    hide Times;
    TimesDifference(a, b, rate);
    TimesMonotone(a, b, rate);
    TimesCommutes(b - a, rate);
    TimesBounds(rate, b - a);
  }

  /** Proceeds before any fee is rounded up. */
  ghost function RawProceeds(s: Strategy, a: real): real {
    a - RawFee(a, s.commissionRate, s.minCommission) - RawFee(a, s.transferRate, 0.0) - RawFee(a, s.sellStampRate, 0.0)
  }

  lemma RawSlope(s: Strategy, a: real, b: real)
    requires s.Valid() && a <= b
    ensures 0.97 * (b - a) <= RawProceeds(s, b) - RawProceeds(s, a) <= b - a
  {
    hide RawFee;
    FeeSlope(a, b, s.commissionRate, s.minCommission);
    FeeSlope(a, b, s.transferRate, 0.0);
    FeeSlope(a, b, s.sellStampRate, 0.0);
  }

  /** Rounding costs at most three cents, and gives back at most the fee slack. */
  lemma RoundingCost(s: Strategy, price: real, n: nat)
    requires n > 0
    ensures 0.0 <= RawProceeds(s, Times(price, n as real)) + 3.0 * FEE_SLACK - Proceeds(s, price, n) < 0.03
  {
    hide Charge, RawFee, Times;
  }

  /** Raising a price changes the proceeds by between 97 and 100 percent of the rise, give or take three cents. */
  lemma ProceedsGain(s: Strategy, p: real, q: real, n: nat)
    requires s.Valid() && p <= q && n > 0
    ensures var d := Times(q - p, n as real);
            0.97 * d - 0.03 < Proceeds(s, q, n) - Proceeds(s, p, n) < d + 0.03
  {
    hide RawProceeds, Proceeds, Times;
    TimesDifference(p, q, n as real);
    TimesMonotone(p, q, n as real);
    RoundingCost(s, p, n);
    RoundingCost(s, q, n);
    RawSlope(s, Times(p, n as real), Times(q, n as real));
  }

  /**
   * On the cent grid a higher price never brings less, for at least a hundred shares: a cent more is
   * a yuan more, which three fees rounded up cannot eat.
   */
  lemma GridMonotone(s: Strategy, p: real, q: real, n: nat)
    requires s.Valid() && OnGrid(p) && OnGrid(q) && p <= q && (n == 0 || n >= 100)
    ensures Proceeds(s, p, n) <= Proceeds(s, q, n)
    ensures p < q && n > 0 ==> Proceeds(s, q, n) - Proceeds(s, p, n) > 0.9
  {
    hide OnGrid, Times, Charge;
    if p < q && n > 0 {
      GridGap(p, q);
      TimesBounds(q - p, n as real);
      ProceedsGain(s, p, q, n);
    }
  }

  /** Off the grid a higher price can bring less, even for a lot of a hundred shares with ordinary rates. */
  lemma OffGridNotMonotone()
    ensures exists s: Strategy, p, q ::
              s.Valid() && 0.0 < p < q && Proceeds(s, q, 100) < Proceeds(s, p, 100)
  {
    hide OnGrid;
    var s := Strategy(20000.0, 0.0, 0.0, 0.0, 0.0005, 0.0, 3.0);
    var p, q := 0.20000002, 0.20000003;
    assert Times(p, 100 as real) == 20.000002 && Times(q, 100 as real) == 20.000003;
    assert Charge(20.000002, 0.0, 0.0) == Charge(20.000003, 0.0, 0.0);
    assert RawFee(20.000002, 0.0005, 0.0) - FEE_SLACK == 0.01;
    assert Charge(20.000002, 0.0005, 0.0) == 0.01;
    assert Charge(20.000003, 0.0005, 0.0) > 0.01;
    assert Ceil((RawFee(20.000003, 0.0005, 0.0) - FEE_SLACK) * 100.0) >= 2;
    assert Charge(20.000003, 0.0005, 0.0) >= 0.02;
    assert Proceeds(s, q, 100) < Proceeds(s, p, 100);
  }
}
