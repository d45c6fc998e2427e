/**
  * Positions in stocks, funds, bonds and crypto at average cost: buying, selling, and taking either back.
  * Quantities and prices count units of 10^-4, money counts minor units of a currency with `p` decimals.
  */
module Position {
  import opened Prelude
  import opened Arith
  import opened Decimals

  const QUANTITY_SCALE := 4
  const RATIO_SCALE := 12

  datatype Holding = Holding(quantity: int, cost: int, net: int)

  /** `price_times_quantity` */
  function MarketValue(net: int, quantity: int, p: nat): int {
    Round(Mul(Decimal(net, QUANTITY_SCALE), Decimal(quantity, QUANTITY_SCALE)), p).m
  }

  /** The nearest minor unit to price times quantity. */
  lemma {:induction false} MarketValueNear(net: int, quantity: int, p: nat)
    requires p <= 8
    ensures 2 * Abs(Pow10(8 - p) * MarketValue(net, quantity, p) - net * quantity) <= Pow10(8 - p)
  {
    HalfUpNear(net * quantity, Pow10(8 - p));
    if p == 8 {
      assert Pow10(0) == 1;
    }
  }

  /** The part of `cost` that `part` out of `whole` units carry. */
  function Share(cost: int, part: int, whole: int, p: nat): int
    requires whole != 0
  {
    var ratio := Div(Decimal(part, QUANTITY_SCALE), Decimal(whole, QUANTITY_SCALE), RATIO_SCALE);
    Round(Mul(Decimal(cost, p), ratio), p).m
  }

  function Bought(h: Holding, paid: int, price: int, quantity: int): Holding {
    Holding(h.quantity + quantity, h.cost + paid, price)
  }

  /** `ledger_calc_sell_position`; None when there is not enough to sell. */
  function Sold(h: Holding, quantity: int, p: nat): Option<Holding> {
    if quantity < 0 || quantity > h.quantity then None
    else if quantity == h.quantity then Some(Holding(0, 0, h.net))
    else Some(Holding(h.quantity - quantity, h.cost - Share(h.cost, quantity, h.quantity, p), h.net))
  }

  function Unbought(h: Holding, paid: int, quantity: int): Holding {
    var left := if h.quantity > quantity then h.quantity - quantity else 0;
    Holding(left, if h.cost > paid then h.cost - paid else 0, if left != 0 then h.net else 0)
  }

  function Unsold(h: Holding, price: int, quantity: int, p: nat): Holding {
    var restored := if h.quantity != 0 then Share(h.cost, quantity, h.quantity, p) else MarketValue(price, quantity, p);
    Holding(h.quantity + quantity, h.cost + restored, h.net)
  }

  // ---------------------------------------------------------------------------------------
  // Buys and their rollbacks, in any order

  /** `paid` is the amount with the fee. */
  datatype Purchase = Purchase(paid: int, price: int, quantity: nat)

  /** Taking a buy back takes off what it would cost at the rates of that day. */
  datatype Trade = Buy(purchase: Purchase) | Undo(index: nat, taken: int)

  /**
    * A holding and the purchases in it that have not been rolled back, with what rollbacks took off less than
    * was paid, and what they should have taken off below a cost of zero.
    */
  datatype Account = Account(holding: Holding, live: seq<Purchase>, moved: int, cut: nat)

  function Opened(base: Holding): Account { Account(base, [], 0, 0) }

  function Quantities(live: seq<Purchase>): (r: nat) {
    if live == [] then 0 else live[0].quantity + Quantities(live[1..])
  }

  function Payments(live: seq<Purchase>): (r: int) {
    if live == [] then 0 else live[0].paid + Payments(live[1..])
  }

  function Traded(a: Account, t: Trade): Account {
    match t
    case Buy(b) => a.(holding := Bought(a.holding, b.paid, b.price, b.quantity), live := a.live + [b])
    case Undo(k, taken) =>
      if k < |a.live| then
        var over := if taken > a.holding.cost then taken - a.holding.cost else 0;
        Account(Unbought(a.holding, taken, a.live[k].quantity), a.live[..k] + a.live[k + 1..],
                a.moved + (a.live[k].paid - taken), a.cut + over)
      else a
  }

  function TradedAll(a: Account, ts: seq<Trade>): Account {
    if ts == [] then a else Traded(TradedAll(a, ts[..|ts| - 1]), ts[|ts| - 1])
  }

  ghost predicate Balanced(base: Holding, a: Account) {
    && a.holding.quantity == base.quantity + Quantities(a.live)
    && a.holding.cost == base.cost + Payments(a.live) + a.moved + a.cut
  }

  lemma {:induction false} SumsConcat(a: seq<Purchase>, b: seq<Purchase>)
    ensures Quantities(a + b) == Quantities(a) + Quantities(b)
    ensures Payments(a + b) == Payments(a) + Payments(b)
  {
    if a == [] {
      assert a + b == b;
    } else {
      assert (a + b)[1..] == a[1..] + b;
      SumsConcat(a[1..], b);
    }
  }

  lemma {:induction false} SumsWithout(live: seq<Purchase>, k: nat)
    requires k < |live|
    ensures Quantities(live) == live[k].quantity + Quantities(live[..k] + live[k + 1..])
    ensures Payments(live) == live[k].paid + Payments(live[..k] + live[k + 1..])
  {
    assert live == live[..k] + ([live[k]] + live[k + 1..]);
    SumsConcat(live[..k], [live[k]] + live[k + 1..]);
    SumsConcat([live[k]], live[k + 1..]);
    SumsConcat(live[..k], live[k + 1..]);
  }

  lemma {:induction false} TradeKeepsBalance(base: Holding, a: Account, t: Trade)
    requires base.quantity >= 0 && Balanced(base, a)
    ensures Balanced(base, Traded(a, t))
  {
    match t
    case Buy(b) => SumsConcat(a.live, [b]);
    case Undo(k, _) =>
      if k < |a.live| {
        SumsWithout(a.live, k);
      }
  }

  lemma {:induction false} RunIsBalanced(base: Holding, ts: seq<Trade>)
    requires base.quantity >= 0
    ensures Balanced(base, TradedAll(Opened(base), ts))
  {
    if ts != [] {
      RunIsBalanced(base, ts[..|ts| - 1]);
      TradeKeepsBalance(base, TradedAll(Opened(base), ts[..|ts| - 1]), ts[|ts| - 1]);
    }
  }

  /** A rollback takes no more off than the cost there is. */
  predicate CostCovers(a: Account, t: Trade) {
    t.Undo? && t.index < |a.live| ==> t.taken <= a.holding.cost
  }

  ghost predicate AlwaysCovers(base: Holding, ts: seq<Trade>) {
    forall i :: 0 <= i < |ts| ==> CostCovers(TradedAll(Opened(base), ts[..i]), ts[i])
  }

  lemma {:induction false} CoversSnoc(base: Holding, ts: seq<Trade>, t: Trade)
    ensures AlwaysCovers(base, ts + [t])
            <==> AlwaysCovers(base, ts) && CostCovers(TradedAll(Opened(base), ts), t)
  {
    var all := ts + [t];
    assert all[..|ts|] == ts && all[|ts|] == t;
    forall i | 0 <= i < |ts|
      ensures all[i] == ts[i] && all[..i] == ts[..i]
    {
    }
  }

  lemma {:induction false} CutStays(a: Account, t: Trade)
    ensures Traded(a, t).cut >= a.cut && (Traded(a, t).cut == a.cut <==> CostCovers(a, t))
  {
  }

  lemma {:induction false} NothingIsCutExactly(base: Holding, ts: seq<Trade>)
    ensures TradedAll(Opened(base), ts).cut == 0 <==> AlwaysCovers(base, ts)
  {
    if ts != [] {
      var front, last := ts[..|ts| - 1], ts[|ts| - 1];
      assert ts == front + [last];
      NothingIsCutExactly(base, front);
      CoversSnoc(base, front, last);
      CutStays(TradedAll(Opened(base), front), last);
    }
  }

  /**
    * After any run of buys and of rollbacks of live buys, in any order and at any rates, the quantity is the
    * base plus the live buys: its clamp at zero never cuts anything off. The cost is the base plus the live
    * buys plus what the rates moved, and more by what its clamp cut off; that is nothing exactly if no
    * rollback took more than there was.
    */
  lemma {:induction false} LiveBuysAddUp(base: Holding, ts: seq<Trade>)
    requires base.quantity >= 0
    ensures var a := TradedAll(Opened(base), ts);
            && a.holding.quantity == base.quantity + Quantities(a.live)
            && a.holding.cost == base.cost + Payments(a.live) + a.moved + a.cut
            && (a.cut == 0 <==> AlwaysCovers(base, ts))
  {
    RunIsBalanced(base, ts);
    NothingIsCutExactly(base, ts);
  }

  /** A buy pays something, and a rollback takes off what was paid. */
  predicate AtCost(a: Account, t: Trade) {
    match t
    case Buy(b) => b.paid >= 0
    case Undo(k, taken) => k < |a.live| ==> taken == a.live[k].paid
  }

  predicate NonNegative(live: seq<Purchase>) { forall i :: 0 <= i < |live| ==> live[i].paid >= 0 }

  lemma {:induction false} PaymentsAreNonNegative(live: seq<Purchase>)
    requires NonNegative(live)
    ensures Payments(live) >= 0
  {
    if live != [] {
      PaymentsAreNonNegative(live[1..]);
    }
  }

  /** Nothing was moved or cut off so far. */
  ghost predicate IsExact(base: Holding, a: Account) {
    Balanced(base, a) && NonNegative(a.live) && a.moved == 0 && a.cut == 0
  }

  /** As long as rollbacks take off what was paid, the cost is that of the live buys. */
  lemma {:induction false} AtCostIsExact(base: Holding, a: Account, t: Trade)
    requires base.quantity >= 0 && base.cost >= 0 && IsExact(base, a) && AtCost(a, t)
    ensures IsExact(base, Traded(a, t))
  {
    TradeKeepsBalance(base, a, t);
    match t
    case Buy(b) =>
    case Undo(k, _) =>
      if k < |a.live| {
        SumsWithout(a.live, k);
        PaymentsAreNonNegative(a.live[..k] + a.live[k + 1..]);
      }
  }

  /** A buy taken back at once leaves quantity and cost as they were exactly if neither was negative. */
  lemma {:induction false} UnboughtRestores(h: Holding, b: Purchase)
    ensures var back := Unbought(Bought(h, b.paid, b.price, b.quantity), b.paid, b.quantity);
            back.quantity == h.quantity && back.cost == h.cost <==> h.quantity >= 0 && h.cost >= 0
  {
  }

  // ---------------------------------------------------------------------------------------
  // Partial sells and their rollbacks

  function RatioUnit(): int { Pow10(RATIO_SCALE) }

  /** With more than six decimals the product is rounded twice. */
  function Slack(p: nat): nat { if p <= 6 then 0 else 100 }

  lemma {:induction false} PowersOfTen()
    ensures Pow10(2) == 100 && Pow10(10) == 1_0000_000_000 && Pow10(12) == 1_000_000_000_000
  {
    assert Pow10(4) == 10000;
    assert Pow10(8) == 100000000;
  }

  /** Rounding cost * ratio to `p` decimals. */
  lemma {:induction false} ProductError(cost: int, r: int, p: nat)
    requires p <= 6 || p == 8
    ensures 2 * Abs(cost * r - RatioUnit() * Round(Mul(Decimal(cost, p), Decimal(r, RATIO_SCALE)), p).m)
            <= RatioUnit() + Slack(p)
  {
    PowersOfTen();
    var n := cost * r;
    if p <= 6 {
      HalfUpNear(n, RatioUnit());
    } else {
      var m := DivHalfUp(n, 100);
      HalfUpNear(n, 100);
      HalfUpNear(m, 1_0000_000_000);
      assert Mul(Decimal(cost, p), Decimal(r, RATIO_SCALE)) == Decimal(m, MAX_SCALE);
    }
  }

  lemma {:induction false} RatioError(part: int, whole: int)
    requires whole > 0
    ensures var r := Div(Decimal(part, QUANTITY_SCALE), Decimal(whole, QUANTITY_SCALE), RATIO_SCALE).m;
            2 * Abs(whole * r - part * RatioUnit()) <= whole
  {
    HalfUpNear(part * RatioUnit(), whole);
  }

  /**
    * The share is within half a minor unit plus half of 10^-12 of the cost of the exact proportion
    * cost * part / whole; the inequality is multiplied out by 2 * 10^12 * whole.
    */
  lemma {:induction false} ShareError(cost: int, part: int, whole: int, p: nat)
    requires whole > 0 && (p <= 6 || p == 8)
    ensures 2 * RatioUnit() * Abs(whole * Share(cost, part, whole, p) - cost * part)
            <= (RatioUnit() + Slack(p) + Abs(cost)) * whole
  {
    var r := Div(Decimal(part, QUANTITY_SCALE), Decimal(whole, QUANTITY_SCALE), RATIO_SCALE).m;
    RatioError(part, whole);
    ProductError(cost, r, p);
    Combine(RatioUnit(), Slack(p), cost, part, whole, r, Share(cost, part, whole, p));
  }

  /** The two rounding errors add up. */
  lemma {:induction false} Combine(P: int, slack: nat, cost: int, part: int, whole: int, r: int, share: int)
    requires P > 0 && whole > 0
    requires 2 * Abs(whole * r - part * P) <= whole
    requires 2 * Abs(cost * r - P * share) <= P + slack
    ensures 2 * P * Abs(whole * share - cost * part) <= (P + slack + Abs(cost)) * whole
  {
    var e, e1, e2 := whole * share - cost * part, whole * r - part * P, cost * r - P * share;
    ErrorIdentity(P, cost, part, whole, r, share);
    AbsMul(P, e);
    AbsMul(cost, e1);
    AbsMul(whole, e2);
    SumBound(P, whole, Abs(cost), P + slack, Abs(e), Abs(e1), Abs(e2));
  }

  lemma {:induction false} SumBound(P: nat, W: nat, A: nat, K: int, E: nat, E1: nat, E2: nat)
    requires P * E <= A * E1 + W * E2 && 2 * E1 <= W && 2 * E2 <= K
    ensures 2 * P * E <= (K + A) * W
  {
    MulOrder(A, 2 * E1, W);
    MulOrder(W, 2 * E2, K);
    Swap(2, A, E1);
    Swap(2, W, E2);
    Distribute(W, K, A);
    assert 2 * P * E == 2 * (P * E);
  }

  lemma {:induction false} ErrorIdentity(P: int, cost: int, part: int, whole: int, r: int, share: int)
    ensures P * (whole * share - cost * part) == cost * (whole * r - part * P) - whole * (cost * r - P * share)
  {
    Distribute(P, whole * share, cost * part);
    Distribute(cost, whole * r, part * P);
    Distribute(whole, cost * r, P * share);
    Swap(P, whole, share);
    Swap(cost, whole, r);
    Swap(P, cost, part);
  }

  /**
    * A sell of `sold` out of `h.quantity` units, taken back while `left` remain, gives the quantity
    * back exactly and the cost up to rounding: the bound below, divided by 2 * 10^12 * left, is
    * (1/2 + cost / (2 * 10^12)) * quantity / left + 1/2 + remaining cost / (2 * 10^12).
    */
  lemma {:induction false} SellThenRollback(h: Holding, price: int, sold: int, p: nat)
    requires 0 < sold < h.quantity && (p <= 6 || p == 8)
    ensures Sold(h, sold, p).Some?
    ensures var rest := Sold(h, sold, p).value;
            var back := Unsold(rest, price, sold, p);
            && back.quantity == h.quantity && back.net == h.net
            && 2 * RatioUnit() * (rest.quantity * Abs(back.cost - h.cost))
               <= (RatioUnit() + Slack(p) + Abs(h.cost)) * h.quantity
                  + (RatioUnit() + Slack(p) + Abs(rest.cost)) * rest.quantity
  {
    var rest := Sold(h, sold, p).value;
    var out, back := Share(h.cost, sold, h.quantity, p), Share(rest.cost, sold, rest.quantity, p);
    ShareError(h.cost, sold, h.quantity, p);
    ShareError(rest.cost, sold, rest.quantity, p);
    var e1, e2 := h.quantity * out - h.cost * sold, rest.quantity * back - rest.cost * sold;
    RoundTrip(h.quantity, sold, h.cost, out, back);
    AbsMul(rest.quantity, back - out);
    assert Abs(e2 - e1) <= Abs(e1) + Abs(e2);
    Distribute(2 * RatioUnit(), Abs(e1), Abs(e2));
    MulOrder(2 * RatioUnit(), Abs(e2 - e1), Abs(e1) + Abs(e2));
  }

  lemma {:induction false} RoundTrip(quantity: int, sold: int, cost: int, out: int, back: int)
    ensures (quantity - sold) * (back - out)
            == ((quantity - sold) * back - (cost - out) * sold) - (quantity * out - cost * sold)
  {
    Distribute(quantity - sold, back, out);
    Distribute(sold, cost, out);
    Distribute(out, quantity, sold);
  }

  /** What a rollback of a partial sell adds to the cost, against the exact proportion. */
  lemma {:induction false} RollbackError(h: Holding, price: int, quantity: int, p: nat)
    requires h.quantity > 0 && (p <= 6 || p == 8)
    ensures var restored := Unsold(h, price, quantity, p).cost - h.cost;
            2 * RatioUnit() * Abs(h.quantity * restored - h.cost * quantity)
            <= (RatioUnit() + Slack(p) + Abs(h.cost)) * h.quantity
  {
    ShareError(h.cost, quantity, h.quantity, p);
  }

  /** After a sell of everything, the rollback takes the sale's price for the lost cost. */
  lemma {:induction false} FullSellThenRollback(h: Holding, price: int, p: nat)
    requires h.quantity >= 0
    ensures Sold(h, h.quantity, p).Some?
    ensures Unsold(Sold(h, h.quantity, p).value, price, h.quantity, p) == h
            <==> MarketValue(price, h.quantity, p) == h.cost
  {
  }

  /** The cost never goes below zero by selling, and nothing is sold that is not there. */
  lemma {:induction false} SoldWithin(h: Holding, quantity: int, p: nat)
    requires h.cost >= 0 && (p <= 6 || p == 8)
    ensures Sold(h, quantity, p).Some? <==> 0 <= quantity <= h.quantity
    ensures Sold(h, quantity, p).Some? ==>
              var rest := Sold(h, quantity, p).value;
              rest.quantity == h.quantity - quantity && 0 <= rest.cost <= h.cost
  {
    if 0 <= quantity < h.quantity {
      ShareWithin(h.cost, quantity, h.quantity, p);
    }
  }

  lemma {:induction false} ShareWithin(cost: int, part: int, whole: int, p: nat)
    requires cost >= 0 && 0 <= part < whole && (p <= 6 || p == 8)
    ensures 0 <= Share(cost, part, whole, p) <= cost
  {
    var unit := RatioUnit();
    var r := Div(Decimal(part, QUANTITY_SCALE), Decimal(whole, QUANTITY_SCALE), RATIO_SCALE).m;
    MulNat(part, unit);
    MulOrder(unit, part, whole);
    HalfUpMonotone(0, part * unit, whole);
    HalfUpIs(0, whole, 0);
    HalfUpMonotone(part * unit, whole * unit, whole);
    HalfUpExact(unit, whole);
    MulNat(cost, r);
    MulOrder(cost, r, unit);
    ScaledWithin(cost, r, p);
  }

  /** Rounding keeps the product with a ratio between 0 and 1 between 0 and the cost. */
  lemma {:induction false} ScaledWithin(cost: nat, r: nat, p: nat)
    requires cost * r <= cost * RatioUnit() && (p <= 6 || p == 8)
    ensures 0 <= Round(Mul(Decimal(cost, p), Decimal(r, RATIO_SCALE)), p).m <= cost
  {
    PowersOfTen();
    var n := cost * r;
    MulNat(cost, r);
    if p <= 6 {
      DivWithin(n, cost, RatioUnit());
    } else {
      DivWithin(n, cost * 1_0000_000_000, 100);
      DivWithin(DivHalfUp(n, 100), cost, 1_0000_000_000);
    }
  }

  lemma {:induction false} DivWithin(n: nat, bound: nat, d: int)
    requires d > 0 && n <= d * bound
    ensures 0 <= DivHalfUp(n, d) <= bound
  {
    HalfUpIs(0, d, 0);
    HalfUpMonotone(0, n, d);
    HalfUpMonotone(n, d * bound, d);
    HalfUpExact(bound, d);
  }

  // ---------------------------------------------------------------------------------------
  // Buys and sells, in any order

  datatype Move = Take(purchase: Purchase) | Give(quantity: nat)

  /** A sell of more than there is is refused and changes nothing. */
  function Moved(h: Holding, m: Move, p: nat): Holding {
    match m
    case Take(b) => Bought(h, b.paid, b.price, b.quantity)
    case Give(q) => (match Sold(h, q, p)
                     case Some(rest) => rest
                     case None => h)
  }

  function MovedAll(h: Holding, ms: seq<Move>, p: nat): Holding {
    if ms == [] then h else Moved(MovedAll(h, ms[..|ms| - 1], p), ms[|ms| - 1], p)
  }

  function Taken(ms: seq<Move>): int {
    if ms == [] then 0
    else Taken(ms[..|ms| - 1]) + (if ms[|ms| - 1].Take? then ms[|ms| - 1].purchase.paid else 0)
  }

  /**
    * Over any run of buys and sells neither quantity nor cost goes below zero, and the cost never exceeds
    * what was paid.
    */
  lemma {:induction false} CostStaysPaidFor(h: Holding, ms: seq<Move>, p: nat)
    requires h.quantity >= 0 && h.cost >= 0 && (p <= 6 || p == 8)
    requires forall i :: 0 <= i < |ms| && ms[i].Take? ==> ms[i].purchase.paid >= 0
    ensures var end := MovedAll(h, ms, p);
            end.quantity >= 0 && 0 <= end.cost <= h.cost + Taken(ms)
  {
    if ms != [] {
      CostStaysPaidFor(h, ms[..|ms| - 1], p);
      var m, before := ms[|ms| - 1], MovedAll(h, ms[..|ms| - 1], p);
      if m.Give? {
        SoldWithin(before, m.quantity, p);
      }
    }
  }

  /** Once everything is sold, in however many parts, no cost is left over. */
  lemma {:induction false} NothingHeldCostsNothing(h: Holding, ms: seq<Move>, p: nat)
    requires h.quantity >= 0 && (h.quantity == 0 ==> h.cost == 0)
    requires forall i :: 0 <= i < |ms| && ms[i].Take? ==> ms[i].purchase.quantity > 0
    ensures var end := MovedAll(h, ms, p); end.quantity >= 0 && (end.quantity == 0 ==> end.cost == 0)
  {
    if ms != [] {
      NothingHeldCostsNothing(h, ms[..|ms| - 1], p);
    }
  }
}
