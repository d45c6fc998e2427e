/** Profit on holdings in foreign currencies, split into price and exchange rate. */
module FxPnl {
  import opened Arith
  import opened Decimals
  import P = Position

  // ---------------------------------------------------------------------------------------
  // Conversion at a rate

  /** `rate_convert_money`: `units` of a currency with `from` decimals into one with `to` decimals. */
  function Converted(units: int, from: nat, rate: Decimal, to: nat): int {
    Round(Mul(Decimal(units, from), rate), to).m
  }

  /** `decimal_sub` */
  function Sub(a: Decimal, b: Decimal): Decimal {
    var s := if a.scale > b.scale then a.scale else b.scale;
    Decimal(a.m * Pow10(s - a.scale) - b.m * Pow10(s - b.scale), s)
  }

  /** How much one unit of the result is, and one unit of the exact product, at a common scale. */
  function Coarse(scale: nat, to: nat): int { if scale > to then Pow10(scale - to) else 1 }

  function Fine(scale: nat, to: nat): int { if scale > to then 1 else Pow10(to - scale) }

  /** The result is within half a unit of the exact product. */
  lemma {:induction false} RoundError(n: int, scale: nat, to: nat)
    ensures var e := Fine(scale, to) * n - Coarse(scale, to) * Round(Decimal(n, scale), to).m;
            -Coarse(scale, to) <= 2 * e <= Coarse(scale, to)
  {
    if scale > to {
      HalfUpNear(n, Coarse(scale, to));
    }
  }

  lemma {:induction false} HalfUpScale(n: int, d: int, k: int)
    requires d > 0 && k > 0
    ensures d * k > 0 && DivHalfUp(n * k, d * k) == DivHalfUp(n, d)
  {
    var r := DivHalfUp(n, d);
    HalfUpNear(n, d);
    MulOrder(k, 0, d);
    MulOrder(k, 0, n);
    MulOrder(k, n, 0);
    ScaledError(n, d, r, k);
    ScaleBounds(n - d * r, d, k);
    HalfUpIs(n * k, d * k, r);
  }

  lemma {:induction false} ScaledError(n: int, d: int, r: int, k: int)
    ensures n * k - (d * k) * r == k * (n - d * r)
  {
    Distribute(k, n, d * r);
    Swap(k, d, r);
    Swap(d, k, r);
  }

  lemma {:induction false} ScaleBounds(e: int, d: int, k: int)
    requires k > 0
    ensures 2 * e < d ==> 2 * (k * e) < d * k
    ensures 2 * e <= d ==> 2 * (k * e) <= d * k
    ensures -d < 2 * e ==> -(d * k) < 2 * (k * e)
    ensures -d <= 2 * e ==> -(d * k) <= 2 * (k * e)
  {
    MulOrder(k, 2 * e, d);
    MulOrder(k, -d, 2 * e);
    NegMul(k, d);
    Swap(2, k, e);
  }

  lemma {:induction false} CoarseRescaled(n: int, up: nat, k: nat)
    ensures DivHalfUp(n * Pow10(k), Pow10(up + k)) == DivHalfUp(n, Pow10(up))
  {
    PowAdd(up, k);
    HalfUpScale(n, Pow10(up), Pow10(k));
  }

  lemma {:induction false} FineRescaled(n: int, down: nat, k: nat)
    requires down <= k
    ensures DivHalfUp(n * Pow10(k), Pow10(k - down)) == n * Pow10(down)
  {
    PowAdd(down, k - down);
    Assoc(n, Pow10(down), Pow10(k - down));
    HalfUpExact(n * Pow10(down), Pow10(k - down));
  }

  lemma {:induction false} StillFine(n: int, down: nat, k: nat)
    requires k <= down
    ensures n * Pow10(k) * Pow10(down - k) == n * Pow10(down)
  {
    PowAdd(k, down - k);
    Assoc(n, Pow10(k), Pow10(down - k));
  }

  /** The same number written with more digits rounds to the same result. */
  lemma {:induction false} RoundRescaled(n: int, scale: nat, k: nat, to: nat)
    ensures Round(Decimal(n * Pow10(k), scale + k), to).m == Round(Decimal(n, scale), to).m
  {
    if scale > to {
      CoarseRescaled(n, scale - to, k);
    } else if scale + k > to {
      FineRescaled(n, to - scale, k);
    } else {
      StillFine(n, to - scale, k);
    }
  }

  /** So does its product, though products of more than 18 decimals are first rounded to 18. */
  lemma {:induction false} ConvertRescaled(units: int, from: nat, rate: Decimal, k: nat, to: nat)
    ensures Converted(units, from, Decimal(rate.m * Pow10(k), rate.scale + k), to) == Converted(units, from, rate, to)
  {
    var n, scale := units * rate.m, from + rate.scale;
    Assoc(units, rate.m, Pow10(k));
    assert units * (rate.m * Pow10(k)) == n * Pow10(k);
    ProductRescaled(n, scale, k, to);
  }

  /** `decimal_mul` and the rounding after it, on the exact product. */
  function RoundTwice(n: int, scale: nat, to: nat): int {
    if scale > MAX_SCALE then Round(Round(Decimal(n, scale), MAX_SCALE), to).m else Round(Decimal(n, scale), to).m
  }

  lemma {:induction false} ProductRescaled(n: int, scale: nat, k: nat, to: nat)
    ensures RoundTwice(n * Pow10(k), scale + k, to) == RoundTwice(n, scale, to)
  {
    if scale + k <= MAX_SCALE {
      RoundRescaled(n, scale, k, to);
    } else {
      RoundRescaled(n, scale, k, MAX_SCALE);
      if scale <= MAX_SCALE {
        RoundRescaled(n, scale, MAX_SCALE - scale, to);
      }
    }
  }

  /** Rounding twice is off by half a unit of each of the two scales. */
  lemma {:induction false} TwiceError(n: int, p: int, q: int)
    requires p > 0 && q > 0
    ensures var e := n - p * (q * DivHalfUp(DivHalfUp(n, p), q)); -(p * q + p) <= 2 * e <= p * q + p
  {
    var m := DivHalfUp(n, p);
    var r := DivHalfUp(m, q);
    HalfUpNear(n, p);
    HalfUpNear(m, q);
    Distribute(p, m, q * r);
    ScaleBounds(m - q * r, q, p);
    Assoc(p, q, 1);
  }

  /** How far a conversion may be off, at the scale of the exact product and twice. */
  function Off(scale: nat, to: nat): int {
    if scale > MAX_SCALE then Coarse(scale, to) + Pow10(scale - MAX_SCALE) else Coarse(scale, to)
  }

  lemma {:induction false} ProductError(n: int, scale: nat, to: nat)
    requires to < MAX_SCALE
    ensures var e := Fine(scale, to) * n - Coarse(scale, to) * RoundTwice(n, scale, to);
            -Off(scale, to) <= 2 * e <= Off(scale, to)
  {
    if scale <= MAX_SCALE {
      RoundError(n, scale, to);
    } else {
      var p, q := Pow10(scale - MAX_SCALE), Pow10(MAX_SCALE - to);
      PowAdd(scale - MAX_SCALE, MAX_SCALE - to);
      TwiceError(n, p, q);
      Assoc(p, q, DivHalfUp(DivHalfUp(n, p), q));
    }
  }

  /** Four such errors are less than three units of the result. */
  lemma {:induction false} OffIsSmall(scale: nat, to: nat)
    requires to < MAX_SCALE
    ensures Coarse(scale, to) > 0 && 2 * Off(scale, to) < 3 * Coarse(scale, to)
  {
    if scale > MAX_SCALE {
      var p, q := Pow10(scale - MAX_SCALE), Pow10(MAX_SCALE - to);
      PowAdd(scale - MAX_SCALE, MAX_SCALE - to);
      assert q == 10 * Pow10(MAX_SCALE - to - 1);
      MulOrder(p, 10, q);
    }
  }

  /**
    * A conversion is within half a minor unit of amount times rate, or three quarters when the exact product has
    * more than 18 decimals; the inequality is multiplied out.
    */
  lemma {:induction false} ConversionNear(m: Money, to: Currency, rates: Rates)
    requires m.units != 0 && Canonical(m.currency) != Canonical(to)
    ensures var rate, q := rates(Canonical(m.currency), Canonical(to)), Precision(to);
            var scale := Precision(m.currency) + rate.scale;
            var e := Fine(scale, q) * (m.units * rate.m) - Coarse(scale, q) * Convert(m, to, rates).units;
            && (scale <= 18 ==> 2 * Abs(e) <= Coarse(scale, q))
            && 4 * Abs(e) < 3 * Coarse(scale, q)
  {
    var rate := rates(Canonical(m.currency), Canonical(to));
    ConvertedNear(m.units, Precision(m.currency), rate, Precision(to));
    assert Convert(m, to, rates).units == Converted(m.units, Precision(m.currency), rate, Precision(to));
  }

  lemma {:induction false} ConvertedNear(units: int, from: nat, rate: Decimal, to: nat)
    requires to < MAX_SCALE
    ensures var scale := from + rate.scale;
            var e := Fine(scale, to) * (units * rate.m) - Coarse(scale, to) * Converted(units, from, rate, to);
            (scale <= 18 ==> 2 * Abs(e) <= Coarse(scale, to)) && 4 * Abs(e) < 3 * Coarse(scale, to)
  {
    ProductError(units * rate.m, from + rate.scale, to);
    OffIsSmall(from + rate.scale, to);
  }

  // ---------------------------------------------------------------------------------------
  // One holding

  /** `now` and `then` are the rates into the base currency today and at purchase. */
  datatype Holding = Holding(value: int, cost: int, decimals: nat, now: Decimal, then_: Decimal)

  /** All five results in minor units of the base currency with `base` decimals. */
  datatype Split = Split(price: int, fx: int, combined: int, market: int, cost: int)

  function SplitOf(h: Holding, base: nat): Split {
    var price := Converted(h.value - h.cost, h.decimals, h.now, base);
    var moved := if h.cost != 0 then h.cost else h.value;
    var fx := Converted(moved, h.decimals, Sub(h.now, h.then_), base);
    Split(price, fx, price + fx,
          Converted(h.value, h.decimals, h.now, base), Converted(h.cost, h.decimals, h.then_, base))
  }

  /** With both rates at one scale: four roundings of products that cancel. */
  lemma {:induction false} SplitErrorAt(value: int, cost: int, from: nat, now: int, before: int, scale: nat, to: nat)
    requires to < MAX_SCALE
    ensures var rate0, rate1 := Decimal(before, scale), Decimal(now, scale);
            Abs(Converted(value - cost, from, rate1, to) + Converted(cost, from, Decimal(now - before, scale), to)
                - (Converted(value, from, rate1, to) - Converted(cost, from, rate0, to))) <= 2
  {
    var n1, n2, n3, n4 := (value - cost) * now, cost * (now - before), value * now, cost * before;
    Distribute(now, value, cost);
    Distribute(cost, now, before);
    assert n1 + n2 - n3 + n4 == 0;
    FourProducts(n1, n2, n3, n4, from + scale, to);
  }

  lemma {:induction false} FourProducts(n1: int, n2: int, n3: int, n4: int, scale: nat, to: nat)
    requires to < MAX_SCALE && n1 + n2 - n3 + n4 == 0
    ensures Abs(RoundTwice(n1, scale, to) + RoundTwice(n2, scale, to)
                - (RoundTwice(n3, scale, to) - RoundTwice(n4, scale, to))) <= 2
  {
    ProductError(n1, scale, to);
    ProductError(n2, scale, to);
    ProductError(n3, scale, to);
    ProductError(n4, scale, to);
    OffIsSmall(scale, to);
    FourErrors(Fine(scale, to), Coarse(scale, to), Off(scale, to), n1, n2, n3, n4, RoundTwice(n1, scale, to),
               RoundTwice(n2, scale, to), RoundTwice(n3, scale, to), RoundTwice(n4, scale, to));
  }

  lemma {:induction false} FourErrors(f: int, d: int, b: int, n1: int, n2: int, n3: int, n4: int,
                                      r1: int, r2: int, r3: int, r4: int)
    requires d > 0 && 2 * b < 3 * d && n1 + n2 - n3 + n4 == 0
    requires -b <= 2 * (f * n1 - d * r1) <= b && -b <= 2 * (f * n2 - d * r2) <= b
    requires -b <= 2 * (f * n3 - d * r3) <= b && -b <= 2 * (f * n4 - d * r4) <= b
    ensures Abs(r1 + r2 - (r3 - r4)) <= 2
  {
    FourTerms(d, r1, r2, r3, r4);
    FourTerms(f, n1, n2, n3, n4);
    SumOfErrors(d, b, f * n1, f * n2, f * n3, f * n4, d * r1, d * r2, d * r3, d * r4, r1 + r2 - r3 + r4);
  }

  lemma {:induction false} SumOfErrors(d: int, b: int, x1: int, x2: int, x3: int, x4: int,
                                       y1: int, y2: int, y3: int, y4: int, r: int)
    requires d > 0 && 2 * b < 3 * d && x1 + x2 - x3 + x4 == 0 && y1 + y2 - y3 + y4 == d * r
    requires -b <= 2 * (x1 - y1) <= b && -b <= 2 * (x2 - y2) <= b
    requires -b <= 2 * (x3 - y3) <= b && -b <= 2 * (x4 - y4) <= b
    ensures -2 <= r <= 2
  {
    BelowThree(d, r);
  }

  lemma {:induction false} BelowThree(d: int, r: int)
    requires d > 0 && -3 * d < d * r < 3 * d
    ensures -2 <= r <= 2
  {
    MulOrder(d, 3, r);
    MulOrder(d, r, -3);
  }

  lemma {:induction false} FourTerms(d: int, a: int, b: int, c: int, e: int)
    ensures d * (a + b - c + e) == d * a + d * b - d * c + d * e
  {
    Distribute(d, a, b);
    Distribute(d, a + b, c);
    Distribute(d, a + b - c, e);
  }

  /** Price and rate profit together miss the profit in the base currency by at most two minor units. */
  lemma {:induction false} SplitError(h: Holding, base: nat)
    requires h.cost != 0 && base < MAX_SCALE
    ensures var r := SplitOf(h, base); Abs(r.price + r.fx - (r.market - r.cost)) <= 2
  {
    var s := if h.now.scale > h.then_.scale then h.now.scale else h.then_.scale;
    var now, before := h.now.m * Pow10(s - h.now.scale), h.then_.m * Pow10(s - h.then_.scale);
    ConvertRescaled(h.value - h.cost, h.decimals, h.now, s - h.now.scale, base);
    ConvertRescaled(h.value, h.decimals, h.now, s - h.now.scale, base);
    ConvertRescaled(h.cost, h.decimals, h.then_, s - h.then_.scale, base);
    SplitErrorAt(h.value, h.cost, h.decimals, now, before, s, base);
  }

  /** For a holding without cost the split goes over by all of its rate profit. */
  lemma {:induction false} WithoutCost(h: Holding, base: nat)
    requires h.cost == 0
    ensures var r := SplitOf(h, base); r.price + r.fx - (r.market - r.cost) == r.fx
  {
    RoundZero(h.decimals, h.then_, base);
  }

  lemma {:induction false} RoundZero(from: nat, rate: Decimal, to: nat)
    ensures Converted(0, from, rate, to) == 0
  {
    HalfUpExact(0, Pow10(1));
    var t := from + rate.scale;
    if t > MAX_SCALE {
      HalfUpExact(0, Pow10(t - MAX_SCALE));
    }
    var m := Mul(Decimal(0, from), rate);
    if m.scale > to {
      HalfUpExact(0, Pow10(m.scale - to));
    }
  }

  // ---------------------------------------------------------------------------------------
  // The report

  /** A row of the query; `initial` is zero when no historical rate is known. */
  datatype Row = Row(current: int, quantity: int, net: int, cost: int, decimals: nat, now: Decimal, initial: Decimal)

  function ValueOf(r: Row): int {
    if r.current != 0 then r.current
    else if r.quantity != 0 && r.net != 0 then P.MarketValue(r.net, r.quantity, r.decimals)
    else 0
  }

  function HoldingOf(r: Row): Holding {
    Holding(ValueOf(r), r.cost, r.decimals, r.now, if r.initial.m != 0 then r.initial else r.now)
  }

  function Added(a: Split, b: Split): Split {
    Split(a.price + b.price, a.fx + b.fx, a.combined + b.combined, a.market + b.market, a.cost + b.cost)
  }

  function Totals(rows: seq<Row>, base: nat): Split {
    if rows == [] then Split(0, 0, 0, 0, 0)
    else
      var h := HoldingOf(rows[|rows| - 1]);
      var t := Totals(rows[..|rows| - 1], base);
      if h.value == 0 && h.cost == 0 then t else Added(t, SplitOf(h, base))
  }

  /** The totals of `report_fx_pnl`; a row with neither value nor cost is passed over. */
  method Report(rows: seq<Row>, base: nat) returns (total: Split)
    ensures total == Totals(rows, base)
    ensures total.combined == total.price + total.fx
  {
    total := Split(0, 0, 0, 0, 0);
    for i := 0 to |rows|
      invariant total == Totals(rows[..i], base) && total.combined == total.price + total.fx
    {
      assert rows[..i + 1][..i] == rows[..i];
      var h := HoldingOf(rows[i]);
      if h.value == 0 && h.cost == 0 {
        continue;
      }
      total := Added(total, SplitOf(h, base));
    }
    assert rows[..|rows|] == rows;
  }

  // ---------------------------------------------------------------------------------------
  // The totals, from the columns of the rows

  /** The value of a row: its current value, else net value times quantity, rounded to the nearest minor unit. */
  lemma {:induction false} ValueIs(r: Row)
    ensures r.current != 0 ==> ValueOf(r) == r.current
    ensures r.current == 0 && (r.quantity == 0 || r.net == 0) ==> ValueOf(r) == 0
    ensures r.current == 0 && r.decimals <= 8 ==>
              var unit := Pow10(8 - r.decimals); 2 * Abs(unit * ValueOf(r) - r.net * r.quantity) <= unit
  {
    if r.decimals <= 8 {
      P.MarketValueNear(r.net, r.quantity, r.decimals);
    }
  }

  function MarketSum(rows: seq<Row>, base: nat): int {
    if rows == [] then 0
    else
      var r := rows[|rows| - 1];
      MarketSum(rows[..|rows| - 1], base) + Converted(ValueOf(r), r.decimals, r.now, base)
  }

  function CostSum(rows: seq<Row>, base: nat): int {
    if rows == [] then 0
    else
      var r := rows[|rows| - 1];
      CostSum(rows[..|rows| - 1], base)
      + (if r.initial.m != 0 then Converted(r.cost, r.decimals, r.initial, base)
         else Converted(r.cost, r.decimals, r.now, base))
  }

  function PriceSum(rows: seq<Row>, base: nat): int {
    if rows == [] then 0
    else
      var r := rows[|rows| - 1];
      PriceSum(rows[..|rows| - 1], base) + Converted(ValueOf(r) - r.cost, r.decimals, r.now, base)
  }

  /**
    * The market total converts every value at today's rate, the cost total every cost at the rate at
    * purchase, or today's where that is not known, and the price profit what the values are above the costs at
    * today's rate.
    */
  lemma {:induction false} TotalsAreSums(rows: seq<Row>, base: nat)
    ensures Totals(rows, base).market == MarketSum(rows, base)
    ensures Totals(rows, base).cost == CostSum(rows, base)
    ensures Totals(rows, base).price == PriceSum(rows, base)
    ensures Totals(rows, base).combined == Totals(rows, base).price + Totals(rows, base).fx
  {
    if rows != [] {
      var r := rows[|rows| - 1];
      TotalsAreSums(rows[..|rows| - 1], base);
      RoundZero(r.decimals, r.now, base);
      RoundZero(r.decimals, r.initial, base);
    }
  }

  /** Both parts of a list of rows add up. */
  lemma {:induction false} TotalsConcat(a: seq<Row>, b: seq<Row>, base: nat)
    ensures Totals(a + b, base) == Added(Totals(a, base), Totals(b, base))
  {
    if b == [] {
      assert a + b == a;
    } else {
      assert (a + b)[..|a + b| - 1] == a + b[..|b| - 1];
      TotalsConcat(a, b[..|b| - 1], base);
    }
  }

  /** The first rate is at least the second. */
  predicate AtLeast(a: Decimal, b: Decimal) { a.m * Pow10(b.scale) >= b.m * Pow10(a.scale) }

  lemma {:induction false} SubSign(a: Decimal, b: Decimal)
    ensures AtLeast(a, b) ==> Sub(a, b).m >= 0
    ensures AtLeast(b, a) ==> Sub(a, b).m <= 0
  {
    var s := if a.scale > b.scale then a.scale else b.scale;
    var low := if a.scale > b.scale then b.scale else a.scale;
    PowAdd(s - a.scale, low);
    PowAdd(s - b.scale, low);
    assert a.scale + b.scale == s + low;
    Assoc(a.m, Pow10(s - a.scale), Pow10(low));
    Assoc(b.m, Pow10(s - b.scale), Pow10(low));
    SignOfDifference(a.m * Pow10(s - a.scale), b.m * Pow10(s - b.scale), Pow10(low));
  }

  lemma {:induction false} SignOfDifference(x: int, y: int, k: int)
    requires k > 0
    ensures x * k >= y * k ==> x >= y
    ensures y * k >= x * k ==> y >= x
  {
    MulOrder(k, x, y);
    MulOrder(k, y, x);
  }

  lemma {:induction false} RoundSign(d: Decimal, to: nat)
    ensures d.m >= 0 ==> Round(d, to).m >= 0
    ensures d.m <= 0 ==> Round(d, to).m <= 0
  {
    if d.scale > to {
      var unit := Pow10(d.scale - to);
      HalfUpExact(0, unit);
      if d.m >= 0 {
        HalfUpMonotone(0, d.m, unit);
      }
      if d.m <= 0 {
        HalfUpMonotone(d.m, 0, unit);
      }
    } else {
      SignTimes(d.m, Pow10(to - d.scale));
    }
  }

  lemma {:induction false} SignTimes(a: int, b: int)
    requires b >= 0
    ensures a >= 0 ==> a * b >= 0
    ensures a <= 0 ==> a * b <= 0
  {
  }

  lemma {:induction false} ConvertedSign(units: int, from: nat, rate: Decimal, to: nat)
    requires units >= 0
    ensures rate.m >= 0 ==> Converted(units, from, rate, to) >= 0
    ensures rate.m <= 0 ==> Converted(units, from, rate, to) <= 0
  {
    SignTimes(rate.m, units);
    RoundSign(Decimal(units * rate.m, from + rate.scale), MAX_SCALE);
    RoundSign(Mul(Decimal(units, from), rate), to);
  }

  lemma {:induction false} NoRateNoProfit(units: int, from: nat, rate: Decimal, to: nat)
    ensures Converted(units, from, Sub(rate, rate), to) == 0
  {
    SubSign(rate, rate);
    var zero := Sub(rate, rate);
    assert zero.m == 0;
    var t := from + zero.scale;
    if t > MAX_SCALE {
      HalfUpExact(0, Pow10(t - MAX_SCALE));
    }
    var m := Mul(Decimal(units, from), zero);
    if m.scale > to {
      HalfUpExact(0, Pow10(m.scale - to));
    }
  }

  /** What a row's rate profit is converted from: its cost, or its value if it has none. */
  function Moved(r: Row): int { if r.cost != 0 then r.cost else ValueOf(r) }

  lemma {:induction false} RateProfitOf(r: Row, base: nat)
    ensures Totals([r], base).fx
            == if r.initial.m != 0 then Converted(Moved(r), r.decimals, Sub(r.now, r.initial), base) else 0
  {
    assert [r][..0] == [];
    NoRateNoProfit(Moved(r), r.decimals, r.now, base);
    RoundZero(r.decimals, Sub(r.now, r.initial), base);
  }

  lemma {:induction false} RateProfitSign(r: Row, base: nat)
    requires Moved(r) >= 0
    ensures var fx := Converted(Moved(r), r.decimals, Sub(r.now, r.initial), base);
            (AtLeast(r.now, r.initial) ==> fx >= 0) && (AtLeast(r.initial, r.now) ==> fx <= 0)
  {
    SubSign(r.now, r.initial);
    ConvertedSign(Moved(r), r.decimals, Sub(r.now, r.initial), base);
  }

  lemma {:induction false} OneRowMore(before: seq<Row>, r: Row, behind: seq<Row>, base: nat)
    ensures Totals(before + [r] + behind, base).fx
            == Totals(before + behind, base).fx + Totals([r], base).fx
  {
    TotalsConcat(before + [r], behind, base);
    TotalsConcat(before, [r], base);
    TotalsConcat(before, behind, base);
  }

  /**
    * One row more, at any place: without a rate at purchase it adds no rate profit; with one, a holding of a
    * positive cost, or of a value and no cost, gains from a higher rate today and loses from a lower.
    */
  lemma {:induction false} RateProfitFollowsRates(before: seq<Row>, r: Row, behind: seq<Row>, base: nat)
    requires r.cost > 0 || (r.cost == 0 && ValueOf(r) >= 0)
    ensures var more := Totals(before + [r] + behind, base).fx - Totals(before + behind, base).fx;
            && (r.initial.m == 0 ==> more == 0)
            && (r.initial.m != 0 && AtLeast(r.now, r.initial) ==> more >= 0)
            && (r.initial.m != 0 && AtLeast(r.initial, r.now) ==> more <= 0)
  {
    OneRowMore(before, r, behind, base);
    RateProfitOf(r, base);
    RateProfitSign(r, base);
  }

  function WithCost(rows: seq<Row>): nat {
    if rows == [] then 0 else WithCost(rows[..|rows| - 1]) + (if rows[|rows| - 1].cost != 0 then 1 else 0)
  }

  /** The rate profit booked on holdings without cost. */
  function FxWithoutCost(rows: seq<Row>, base: nat): int {
    if rows == [] then 0
    else
      var r := rows[|rows| - 1];
      FxWithoutCost(rows[..|rows| - 1], base)
      + (if r.cost == 0 && r.initial.m != 0 then Converted(ValueOf(r), r.decimals, Sub(r.now, r.initial), base) else 0)
  }

  lemma {:induction false} FxOfUncosted(r: Row, base: nat)
    requires r.cost == 0
    ensures (if ValueOf(r) != 0 then SplitOf(HoldingOf(r), base).fx else 0)
            == if r.initial.m != 0 then Converted(ValueOf(r), r.decimals, Sub(r.now, r.initial), base) else 0
  {
    NoRateNoProfit(ValueOf(r), r.decimals, r.now, base);
    RoundZero(r.decimals, Sub(r.now, r.initial), base);
  }

  /**
    * Price and rate profit together miss the value of the holdings less their cost, in the base currency, by
    * at most two minor units per holding with a cost, once the rate profit on holdings without cost, which
    * has no counterpart there, is taken off.
    */
  lemma {:induction false} TotalError(rows: seq<Row>, base: nat)
    requires base < MAX_SCALE
    ensures var t := Totals(rows, base);
            Abs(t.combined - (MarketSum(rows, base) - CostSum(rows, base)) - FxWithoutCost(rows, base))
            <= 2 * WithCost(rows)
  {
    TotalsAreSums(rows, base);
    SplitsMiss(rows, base);
  }

  lemma {:induction false} SplitsMiss(rows: seq<Row>, base: nat)
    requires base < MAX_SCALE
    ensures var t := Totals(rows, base);
            Abs(t.price + t.fx - (t.market - t.cost) - FxWithoutCost(rows, base)) <= 2 * WithCost(rows)
  {
    if rows != [] {
      var h := HoldingOf(rows[|rows| - 1]);
      SplitsMiss(rows[..|rows| - 1], base);
      if h.cost != 0 {
        SplitError(h, base);
      } else {
        WithoutCost(h, base);
        FxOfUncosted(rows[|rows| - 1], base);
      }
    }
  }
}
