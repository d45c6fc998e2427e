/**
  * What money is worth in the currency of a report. The program multiplies by a rate per currency; the
  * proofs need only that worth is linear.
  */
module Valuation {
  import opened Decimals

  /** The worth of a number of minor units of a currency. */
  type Worth = (Currency, int) -> real

  function Add(x: int, y: int): int { x + y }

  ghost predicate Linear(worth: Worth) {
    forall c, x, y {:trigger worth(c, Add(x, y))} :: worth(c, Add(x, y)) == worth(c, x) + worth(c, y)
  }

  lemma {:induction false} LinearAdd(worth: Worth, c: Currency, x: int, y: int)
    requires Linear(worth)
    ensures worth(c, x + y) == worth(c, x) + worth(c, y)
  {
    assert worth(c, Add(x, y)) == worth(c, x) + worth(c, y);
  }

  lemma {:induction false} LinearNeg(worth: Worth, c: Currency, x: int)
    requires Linear(worth)
    ensures worth(c, -x) == -worth(c, x) && worth(c, 0) == 0.0
  {
    LinearAdd(worth, c, 0, 0);
    LinearAdd(worth, c, x, -x);
  }

  /** Conversion at the rates of the program: `exchange_rate_get_to_cny`. */
  function AtRates(rate: Currency -> real): Worth { (c: Currency, n: int) => n as real * rate(c) }

  lemma {:induction false} RatesAreLinear(rate: Currency -> real)
    ensures Linear(AtRates(rate))
  {
    forall c, x, y
      ensures AtRates(rate)(c, Add(x, y)) == AtRates(rate)(c, x) + AtRates(rate)(c, y)
    {
      Distributes(x as real, y as real, rate(c));
    }
  }

  lemma {:induction false} Distributes(x: real, y: real, w: real)
    ensures (x + y) * w == x * w + y * w
  {
  }
}
