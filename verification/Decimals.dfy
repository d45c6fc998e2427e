/**
  * Fixed-point decimals with half-up rounding, and money as a count of minor units of its currency.
  * Mantissas are unbounded here; the 128-bit overflow errors are not part of this model.
  */
module Decimals {
  import opened Arith

  const MAX_SCALE := 18

  /** The number `m` * 10^-`scale`. */
  datatype Decimal = Decimal(m: int, scale: nat)

  function Pow10(n: nat): (r: int)
    ensures r >= 1
  {
    if n == 0 then 1 else 10 * Pow10(n - 1)
  }

  /** Quotient rounded to the nearest integer, ties away from zero. */
  function DivHalfUp(n: int, d: int): int
    requires d > 0
    decreases n < 0
  {
    if n < 0 then -DivHalfUp(-n, d) else n / d + (if 2 * (n % d) >= d then 1 else 0)
  }

  function Round(d: Decimal, scale: nat): (r: Decimal)
    ensures r.scale == scale
  {
    if d.scale <= scale then Decimal(d.m * Pow10(scale - d.scale), scale)
    else Decimal(DivHalfUp(d.m, Pow10(d.scale - scale)), scale)
  }

  function Mul(a: Decimal, b: Decimal): (r: Decimal)
    ensures r.scale <= MAX_SCALE
  {
    var exact := Decimal(a.m * b.m, a.scale + b.scale);
    if exact.scale > MAX_SCALE then Round(exact, MAX_SCALE) else exact
  }

  function Div(a: Decimal, b: Decimal, scale: nat): (r: Decimal)
    requires b.m != 0
    ensures r.scale == scale
  {
    var (n, d) := if b.m < 0 then (-a.m, -b.m) else (a.m, b.m);
    if scale + b.scale >= a.scale then Decimal(DivHalfUp(n * Pow10(scale + b.scale - a.scale), d), scale)
    else Decimal(DivHalfUp(n, d * Pow10(a.scale - scale - b.scale)), scale)
  }

  // ---------------------------------------------------------------------------------------
  // Rounding

  /** The result is a nearest integer, and it is the one further from zero when two are equally near. */
  lemma {:induction false} HalfUpNear(n: int, d: int)
    requires d > 0
    ensures -d <= 2 * (n - d * DivHalfUp(n, d)) <= d
    ensures n >= 0 ==> 2 * (n - d * DivHalfUp(n, d)) < d
    ensures n <= 0 ==> -d < 2 * (n - d * DivHalfUp(n, d))
  {
    var k := if n < 0 then -n else n;
    var q, r := k / d, k % d;
    assert k == d * q + r;
    MulStep(d, q + 1);
    NegMul(d, DivHalfUp(k, d));
  }

  /** And that determines it. */
  lemma {:induction false} HalfUpIs(n: int, d: int, r: int)
    requires d > 0
    requires if n >= 0 then -d <= 2 * (n - d * r) < d else -d < 2 * (n - d * r) <= d
    ensures DivHalfUp(n, d) == r
  {
    HalfUpNear(n, d);
    var x := DivHalfUp(n, d);
    MulOrder(d, x, r);
    MulOrder(d, r, x);
  }

  lemma {:induction false} HalfUpOdd(n: int, d: int)
    requires d > 0
    ensures DivHalfUp(-n, d) == -DivHalfUp(n, d)
  {
    if n == 0 {
      HalfUpIs(0, d, 0);
    }
  }

  lemma {:induction false} HalfUpExact(r: int, d: int)
    requires d > 0
    ensures DivHalfUp(d * r, d) == r
  {
    HalfUpIs(d * r, d, r);
  }

  /** Rounding keeps order. */
  lemma {:induction false} HalfUpMonotone(a: int, b: int, d: int)
    requires d > 0 && a <= b
    ensures DivHalfUp(a, d) <= DivHalfUp(b, d)
  {
    HalfUpNear(a, d);
    HalfUpNear(b, d);
    var x, y := DivHalfUp(a, d), DivHalfUp(b, d);
    MulOrder(d, y, x);
  }

  lemma {:induction false} RoundOdd(d: Decimal, scale: nat)
    ensures Round(Decimal(-d.m, d.scale), scale).m == -Round(d, scale).m
  {
    if d.scale <= scale {
      NegMul(d.m, Pow10(scale - d.scale));
    } else {
      HalfUpOdd(d.m, Pow10(d.scale - scale));
    }
  }

  lemma {:induction false} MulOdd(a: Decimal, b: Decimal)
    ensures Mul(Decimal(-a.m, a.scale), b).m == -Mul(a, b).m
    ensures Mul(Decimal(-a.m, a.scale), b).scale == Mul(a, b).scale
  {
    NegMul(a.m, b.m);
    RoundOdd(Decimal(a.m * b.m, a.scale + b.scale), MAX_SCALE);
  }

  lemma {:induction false} PowAdd(a: nat, b: nat)
    ensures Pow10(a + b) == Pow10(a) * Pow10(b)
  {
    if a > 0 {
      PowAdd(a - 1, b);
      assert 10 * (Pow10(a - 1) * Pow10(b)) == (10 * Pow10(a - 1)) * Pow10(b);
    }
  }

  /** Quotients are rounded to the nearest, whatever the signs and scales; multiplied out. */
  lemma {:induction false} DivNear(a: Decimal, b: Decimal, scale: nat)
    requires b.m != 0
    ensures 2 * Abs((b.m * Pow10(a.scale)) * Div(a, b, scale).m - a.m * Pow10(scale + b.scale))
            <= Abs(b.m) * Pow10(a.scale)
  {
    var r := Div(a, b, scale).m;
    if b.m < 0 {
      QuotientNear(-a.m, -b.m, a.scale, scale + b.scale, r);
      SignsCancel(a.m, b.m, Pow10(a.scale), Pow10(scale + b.scale), r);
    } else {
      QuotientNear(a.m, b.m, a.scale, scale + b.scale, r);
    }
  }

  lemma {:induction false} SignsCancel(a: int, b: int, p: int, q: int, r: int)
    ensures (-b * p) * r - -a * q == -((b * p) * r - a * q)
  {
    NegMul(b, p);
    NegMul(b * p, r);
    NegMul(a, q);
  }

  lemma {:induction false} QuotientNear(n: int, d: int, low: nat, up: nat, r: int)
    requires d > 0
    requires r == if up >= low then DivHalfUp(n * Pow10(up - low), d) else DivHalfUp(n, d * Pow10(low - up))
    ensures 2 * Abs((d * Pow10(low)) * r - n * Pow10(up)) <= d * Pow10(low)
  {
    if up >= low {
      HalfUpNear(n * Pow10(up - low), d);
      PowAdd(up - low, low);
      TimesBoth(n, d, r, Pow10(up - low), Pow10(low));
    } else {
      HalfUpNear(n, d * Pow10(low - up));
      PowAdd(low - up, up);
      TimesRight(n, d, r, Pow10(low - up), Pow10(up));
    }
  }

  lemma {:induction false} ScaledBound(e: int, d: int, q: int)
    requires q > 0 && -d <= 2 * e <= d
    ensures -(q * d) <= 2 * (q * e) <= q * d
  {
    MulOrder(q, 2 * e, d);
    MulOrder(q, -d, 2 * e);
    NegMul(q, d);
    Swap(2, q, e);
  }

  lemma {:induction false} TimesBoth(n: int, d: int, r: int, p: int, q: int)
    requires d > 0 && q > 0 && -d <= 2 * (n * p - d * r) <= d
    ensures 2 * Abs((d * q) * r - n * (p * q)) <= d * q
  {
    ScaledBound(n * p - d * r, d, q);
    Distribute(q, n * p, d * r);
    Assoc(n, p, q);
    Assoc(d, q, r);
    Swap(d, q, r);
  }

  lemma {:induction false} TimesRight(n: int, d: int, r: int, p: int, q: int)
    requires d > 0 && p > 0 && q > 0 && -(d * p) <= 2 * (n - (d * p) * r) <= d * p
    ensures 2 * Abs((d * (p * q)) * r - n * q) <= d * (p * q)
  {
    var dp := d * p;
    Assoc(d, p, q);
    ScaledBound(n - dp * r, dp, q);
    Distribute(q, n, dp * r);
    Assoc(dp, q, r);
    Swap(dp, q, r);
  }

  // ---------------------------------------------------------------------------------------
  // Currencies and money

  /** Upper-case currency codes; those with two decimals by default are `Plain`. */
  datatype Currency =
    | NoCurrency
    | JPY | KRW | VND | IDR
    | BHD | KWD | OMR | JOD
    | BTC | ETH | SOL | BNB
    | Plain(code: string)

  /** A missing code counts as CNY. */
  function Canonical(c: Currency): Currency { if c == NoCurrency then Plain("CNY") else c }

  function Precision(c: Currency): (p: nat)
    ensures p <= 8
  {
    if c == JPY || c == KRW || c == VND || c == IDR then 0
    else if c == BHD || c == KWD || c == OMR || c == JOD then 3
    else if c == BTC || c == ETH || c == SOL || c == BNB then 8
    else 2
  }

  /** Yen, won, dong and rupiah have no minor unit, four dinars three decimals, crypto eight, and others two. */
  lemma {:induction false} MinorUnits(c: Currency)
    ensures Precision(c) == 0 <==> c in {JPY, KRW, VND, IDR}
    ensures Precision(c) == 3 <==> c in {BHD, KWD, OMR, JOD}
    ensures Precision(c) == 8 <==> c in {BTC, ETH, SOL, BNB}
    ensures Precision(c) == 2 <==> c == NoCurrency || c.Plain?
  {
  }

  /** `units` minor units: money values are built with the precision of their currency. */
  datatype Money = Money(units: int, currency: Currency)

  type Rates = (Currency, Currency) -> Decimal

  function Amount(m: Money): Decimal { Decimal(m.units, Precision(m.currency)) }

  function Neg(m: Money): Money { Money(-m.units, m.currency) }

  function Convert(m: Money, to: Currency, rates: Rates): (r: Money) {
    if m.units == 0 then Money(0, to)
    else if Canonical(m.currency) == Canonical(to) then m
    else Money(Round(Mul(Amount(m), rates(Canonical(m.currency), Canonical(to))), Precision(to)).m, to)
  }

  lemma {:induction false} ConvertedOdd(a: Decimal, rate: Decimal, scale: nat)
    ensures Round(Mul(Decimal(-a.m, a.scale), rate), scale).m == -Round(Mul(a, rate), scale).m
  {
    MulOdd(a, rate);
    RoundOdd(Mul(a, rate), scale);
  }

  /** Conversion treats gains and losses alike. */
  lemma {:induction false} ConvertOdd(m: Money, to: Currency, rates: Rates)
    ensures Convert(Neg(m), to, rates).units == -Convert(m, to, rates).units
  {
    assert Amount(Neg(m)) == Decimal(-Amount(m).m, Amount(m).scale);
    ConvertedOdd(Amount(m), rates(Canonical(m.currency), Canonical(to)), Precision(to));
  }

  /** Only the canonical currency counts. */
  lemma {:induction false} SameCurrency(a: Money, b: Money, to: Currency, rates: Rates)
    requires a.units == b.units && Canonical(a.currency) == Canonical(b.currency) && Amount(a) == Amount(b)
    ensures Convert(a, to, rates).units == Convert(b, to, rates).units
  {
  }

  /** Money without a currency code is CNY, wherever it goes. */
  lemma {:induction false} NoCodeIsYuan(n: int, to: Currency, rates: Rates)
    ensures Convert(Money(n, NoCurrency), Plain("CNY"), rates).units == n
    ensures Convert(Money(n, Plain("CNY")), NoCurrency, rates).units == n
    ensures Convert(Money(n, NoCurrency), to, rates).units == Convert(Money(n, Plain("CNY")), to, rates).units
  {
    OwnCurrencyStays(Money(n, NoCurrency), Plain("CNY"), rates);
    OwnCurrencyStays(Money(n, Plain("CNY")), NoCurrency, rates);
    SameCurrency(Money(n, NoCurrency), Money(n, Plain("CNY")), to, rates);
  }

  lemma {:induction false} OwnCurrencyStays(m: Money, to: Currency, rates: Rates)
    requires Canonical(m.currency) == Canonical(to)
    ensures Convert(m, to, rates).units == m.units
  {
  }
}
