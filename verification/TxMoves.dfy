/** What each type of transaction does to the balances of its two accounts, type by type. */
module TxMoves {
  import opened Prelude
  import opened Decimals
  import opened TxTypes
  import opened Books
  import opened LedgerLaws
  import opened TradeLaws
  import P = Position

  /** What an owner's gain of `amount` is on the account's balance: debts fall when the owner gains. */
  function Gain(a: Asset, amount: int): int {
    if a.kind == CreditCard || a.kind == Loan || a.kind == OtherLiability then -amount else amount
  }

  /**
    * What a transaction is worth to the owner of its main account, of an investment only without its position:
    * a fee on top is taken off as well, unless another account pays it. A type without an entry in the registry
    * moves nothing, nor does a trade of what is no investment.
    */
  function MainGain(tx: Tx): int {
    var fee := if tx.linked > 0 then 0 else tx.fee;
    match tx.code
    case Deposit => tx.amount - fee
    case TransferIn => tx.amount - fee
    case Interest => tx.amount - fee
    case Income => tx.amount - fee
    case Withdrawal => -tx.amount - fee
    case TransferOut => -tx.amount - fee
    case Fee => if tx.linked > 0 then 0 else -tx.amount
    case _ => -fee
  }

  /** And to the owner of its funding account, which pays the fee on top. */
  function LinkedGain(tx: Tx): int {
    match tx.code
    case Deposit => -tx.amount - tx.fee
    case TransferIn => -tx.amount - tx.fee
    case Interest => -tx.amount - tx.fee
    case Income => tx.amount - tx.fee
    case Withdrawal => tx.amount - tx.fee
    case TransferOut => tx.amount - tx.fee
    case Fee => -tx.amount
    case Buy => -tx.amount - tx.fee
    case Sell => tx.amount - tx.fee
    case _ => -tx.fee
  }

  /** The types without an entry in the registry. */
  predicate IsUnregistered(code: Code) {
    code == Withdraw || code == Expense || code == Dividend || code == Tax || code == Adjustment
  }

  predicate InCurrency(a: Asset, tx: Tx) { Canonical(a.currency) == Canonical(tx.currency) }

  /** A posting in the account's own currency arrives as it is. */
  lemma {:induction false} OwnPosting(a: Asset, p: Posting, rates: Rates)
    requires Canonical(a.currency) == Canonical(p.delta.currency)
    ensures Effect(a, p.asset, p, rates) == Gain(a, p.delta.units)
  {
  }

  lemma {:induction false} OwnFeePosting(a: Asset, id: int, tx: Tx, row: int, day: int, rates: Rates)
    requires InCurrency(a, tx)
    ensures FeeEffect(a, id, tx, row, day, rates)
            == if tx.code != Fee && id == FeeTarget(tx) then Gain(a, -tx.fee) else 0
  {
    OwnPosting(a, FeePosting(tx, row, day), rates);
  }

  /** The fee, the main and the linked posting of a transaction, each on its account. */
  lemma {:induction false} AppliedPosts(db: Tables, rates: Rates, day: int, row: int, tx: Tx, id: int)
    requires Applied(db, rates, day, row, tx).Some? && id in db.assets
    requires id == tx.asset ==> !HasPosition(db, tx)
    ensures var db1, a := Applied(db, rates, day, row, tx).value.0, db.assets[id];
            var own := OwnCurrency(db, tx.asset);
            && id in db1.assets
            && db1.assets[id] == a.(value := a.value + FeeEffect(a, id, tx, 0, 0, rates)
                                             + Effect(a, id, MainPosting(tx, own, 0, 0, 0), rates)
                                             + Effect(a, id, LinkedPosting(tx, 0, 0), rates))
  {
    AppliedInStages(db, rates, day, row, tx);
    var (db1, stored) := RowStored(db, row, tx).value;
    var (db2, position) := PositionApplied(db1, rates, tx).value;
    SettledEffect(db2, rates, day, tx, OwnCurrency(db, tx.asset), position, stored, id);
  }

  /** What an account of the transaction gains, in the account's favour. */
  ghost predicate Gains(db: Tables, rates: Rates, day: int, row: int, tx: Tx, id: int, amount: int)
    requires Applied(db, rates, day, row, tx).Some? && id in db.assets
  {
    var db1, a := Applied(db, rates, day, row, tx).value.0, db.assets[id];
    id in db1.assets && db1.assets[id] == a.(value := a.value + Gain(a, amount))
  }

  function FeeOnTop(tx: Tx): int { if tx.code == Fee then 0 else tx.fee }

  lemma {:induction false} MainUnits(tx: Tx, own: Currency)
    requires LedgerKnows(tx.code)
    ensures var d := MainDelta(tx, own, 0);
            d.units == MainGain(tx) + (if tx.linked > 0 then 0 else FeeOnTop(tx))
            && (IsTrade(tx.code) ==> d.units == 0) && (!IsTrade(tx.code) ==> d.currency == tx.currency)
  {
  }

  lemma {:induction false} LinkedUnits(tx: Tx)
    requires LedgerKnows(tx.code) && tx.linked > 0
    ensures LinkedMoney(tx) == Money(LinkedGain(tx) + FeeOnTop(tx), tx.currency)
  {
  }

  lemma {:induction false} GainAdds(a: Asset, x: int, y: int)
    ensures Gain(a, x) + Gain(a, y) == Gain(a, x + y)
  {
  }

  /** The main account, when it is in the transaction's currency; on a debt everything is turned round. */
  lemma {:induction false} MainAccountGains(db: Tables, rates: Rates, day: int, row: int, tx: Tx)
    requires Applied(db, rates, day, row, tx).Some? && tx.asset in db.assets && InCurrency(db.assets[tx.asset], tx)
    requires tx.linked != tx.asset && !HasPosition(db, tx)
    ensures Gains(db, rates, day, row, tx, tx.asset, MainGain(tx))
  {
    var a, main := db.assets[tx.asset], MainPosting(tx, OwnCurrency(db, tx.asset), 0, 0, 0);
    AppliedPosts(db, rates, day, row, tx, tx.asset);
    MainUnits(tx, OwnCurrency(db, tx.asset));
    OwnFeePosting(a, tx.asset, tx, 0, 0, rates);
    if !IsTrade(tx.code) {
      OwnPosting(a, main, rates);
    }
    var fee := if tx.linked > 0 then 0 else FeeOnTop(tx);
    GainAdds(a, -fee, MainGain(tx) + fee);
  }

  /** The funding account, when it is in the transaction's currency, for trades as well. */
  lemma {:induction false} LinkedAccountGains(db: Tables, rates: Rates, day: int, row: int, tx: Tx)
    requires Applied(db, rates, day, row, tx).Some? && tx.linked in db.assets && InCurrency(db.assets[tx.linked], tx)
    requires tx.linked != tx.asset && tx.linked > 0
    ensures Gains(db, rates, day, row, tx, tx.linked, LinkedGain(tx))
  {
    var a := db.assets[tx.linked];
    AppliedPosts(db, rates, day, row, tx, tx.linked);
    LinkedUnits(tx);
    OwnFeePosting(a, tx.linked, tx, 0, 0, rates);
    OwnPosting(a, LinkedPosting(tx, 0, 0), rates);
    GainAdds(a, -FeeOnTop(tx), LinkedGain(tx) + FeeOnTop(tx));
  }

  /** No other account moves. */
  lemma {:induction false} OthersGainNothing(db: Tables, rates: Rates, day: int, row: int, tx: Tx, id: int)
    requires Applied(db, rates, day, row, tx).Some? && id in db.assets && id != tx.asset && id != tx.linked
    ensures var db1 := Applied(db, rates, day, row, tx).value.0; id in db1.assets && db1.assets[id] == db.assets[id]
  {
    AppliedPosts(db, rates, day, row, tx, id);
  }

  // ---------------------------------------------------------------------------------------
  // When a transaction is accepted

  /** The main posting has something to move. */
  predicate MovesMain(tx: Tx) {
    tx.amount != 0 && !IsTrade(tx.code) && !IsUnregistered(tx.code) && (tx.code == Fee ==> tx.linked <= 0)
  }

  /** So has the linked one. */
  predicate MovesLinked(tx: Tx) { tx.linked > 0 && tx.amount != 0 && !IsUnregistered(tx.code) }

  predicate HasFee(tx: Tx) { tx.fee != 0 && tx.code != Fee }

  /** A posting is refused exactly if it moves something on an account that is not the user's. */
  lemma {:induction false} RefusedExactly(db: Tables, rates: Rates, p: Posting)
    ensures PostedUnlessZero(db, rates, p).None?
            <==> p.delta.units != 0 && (p.asset <= 0 || p.user <= 0 || p.asset !in db.assets
                                        || db.assets[p.asset].user != p.user)
  {
  }

  lemma {:induction false} MovesAre(tx: Tx, own: Currency)
    requires LedgerKnows(tx.code)
    ensures !IsTrade(tx.code) ==> (MainDelta(tx, own, 0).units != 0 <==> MovesMain(tx))
    ensures LinkedMoney(tx).units != 0 <==> MovesLinked(tx)
  {
    MainUnits(tx, own);
    if tx.linked > 0 {
      LinkedUnits(tx);
    }
  }

  lemma {:induction false} SettlesExactly(db: Tables, rates: Rates, day: int, tx: Tx, own: Currency, position: int,
                                          row: int)
    requires tx.user > 0 && tx.asset > 0 && LedgerKnows(tx.code)
    requires IsTrade(tx.code) && position != 0 ==> Owns(db, tx.asset, tx.user)
    requires !IsTrade(tx.code) ==> position == 0
    ensures Settled(db, rates, day, tx, own, position, row).Some?
            <==> && (HasFee(tx) ==> Owns(db, if tx.linked > 0 then tx.linked else tx.asset, tx.user))
                 && (MovesMain(tx) ==> Owns(db, tx.asset, tx.user))
                 && (MovesLinked(tx) ==> Owns(db, tx.linked, tx.user))
  {
    MovesAre(tx, own);
  }

  /**
    * A transaction is accepted exactly if it names a user and an account, its type is known and no loss, the
    * row to overwrite is there, a sell is covered, and every account that has to move is the user's own.
    */
  lemma {:induction false} AcceptedExactly(db: Tables, rates: Rates, day: int, row: int, tx: Tx)
    ensures Applied(db, rates, day, row, tx).Some?
            <==> && tx.user > 0 && tx.asset > 0 && !tx.code.Other? && tx.code != Loss
                 && (row > 0 ==> FindRow(db.rows, row, tx.user).Some?)
                 && (tx.code == Sell && HasPosition(db, tx) ==>
                       0 <= tx.quantity <= db.assets[tx.asset].holding.quantity)
                 && (HasFee(tx) ==> Owns(db, if tx.linked > 0 then tx.linked else tx.asset, tx.user))
                 && (MovesMain(tx) ==> Owns(db, tx.asset, tx.user))
                 && (MovesLinked(tx) ==> Owns(db, tx.linked, tx.user))
  {
    if tx.user > 0 && tx.asset > 0 && LedgerKnows(tx.code) && RowStored(db, row, tx).Some? {
      var (db1, stored) := RowStored(db, row, tx).value;
      var moved := PositionApplied(db1, rates, tx);
      if moved.Some? {
        SettlesExactly(moved.value.0, rates, day, tx, OwnCurrency(db, tx.asset), moved.value.1, stored);
      }
    }
  }

  /** A transaction with a fee leaves two new rows: its own, and behind it the fee, which charges none itself. */
  lemma {:induction false} FeeIsRecorded(db: Tables, rates: Rates, day: int, tx: Tx)
    requires Applied(db, rates, day, 0, tx).Some?
    ensures var payer := if tx.linked > 0 then tx.linked else tx.asset;
            var fee := Tx(tx.user, tx.asset, payer, Fee, tx.currency, tx.fee, 0, 0, 0);
            Applied(db, rates, day, 0, tx).value.0.rows
            == db.rows + [Row(db.nextRow, tx, 0)]
               + (if HasFee(tx) then [Row(db.nextRow + 1, fee, db.nextRow)] else [])
  {
    AppliedInStages(db, rates, day, 0, tx);
    var (db1, stored) := RowStored(db, 0, tx).value;
    var (db2, position) := PositionApplied(db1, rates, tx).value;
    SettledRows(db2, rates, day, tx, OwnCurrency(db, tx.asset), position, stored);
  }

  // ---------------------------------------------------------------------------------------
  // What is logged

  /** Log entries of one account and purpose, for one row and day. */
  ghost predicate AreLogs(logs: seq<Log>, asset: int, source: Source, user: int, row: int, day: int) {
    forall l :: l in logs ==>
      l.asset == asset && l.source == source && l.user == user && l.sourceId == row && l.day == day
  }

  lemma {:induction false} PostLogs(db: Tables, rates: Rates, p: Posting) returns (logs: seq<Log>)
    requires PostedUnlessZero(db, rates, p).Some?
    ensures PostedUnlessZero(db, rates, p).value.logs == db.logs + logs
    ensures |logs| == (if p.delta.units != 0 then 1 else 0)
    ensures AreLogs(logs, p.asset, p.source, p.user, p.sourceId, p.day)
  {
    var after := PostedUnlessZero(db, rates, p).value;
    logs := after.logs[|db.logs|..];
  }

  lemma {:induction false} FeeLogs(db: Tables, rates: Rates, day: int, tx: Tx, row: int) returns (logs: seq<Log>)
    requires FeeCharged(db, rates, day, tx, row).Some?
    ensures FeeCharged(db, rates, day, tx, row).value.logs == db.logs + logs
    ensures |logs| == (if HasFee(tx) then 1 else 0)
    ensures AreLogs(logs, if tx.linked > 0 then tx.linked else tx.asset, TransactionFee, tx.user, row, day)
  {
    logs := [];
    if HasFee(tx) {
      logs := PostLogs(Inserted(db, FeeRow(tx), row), rates, FeePosting(tx, row, day));
    }
  }

  lemma {:induction false} BothLogs(db: Tables, rates: Rates, p: Posting, q: Posting)
    returns (first: seq<Log>, second: seq<Log>)
    requires BothPosted(db, rates, p, q).Some?
    ensures BothPosted(db, rates, p, q).value.logs == db.logs + first + second
    ensures |first| == (if p.delta.units != 0 then 1 else 0) && |second| == (if q.delta.units != 0 then 1 else 0)
    ensures AreLogs(first, p.asset, p.source, p.user, p.sourceId, p.day)
    ensures AreLogs(second, q.asset, q.source, q.user, q.sourceId, q.day)
  {
    first := PostLogs(db, rates, p);
    second := PostLogs(PostedUnlessZero(db, rates, p).value, rates, q);
  }

  /** A transaction logs its fee, its main and its linked posting, in this order, each under its own source. */
  lemma {:induction false} AppliedLogs(db: Tables, rates: Rates, day: int, row: int, tx: Tx)
    returns (fee: seq<Log>, main: seq<Log>, linked: seq<Log>)
    requires Applied(db, rates, day, row, tx).Some?
    ensures var (db1, stored) := Applied(db, rates, day, row, tx).value;
            && db1.logs == db.logs + fee + main + linked
            && AreLogs(fee, if tx.linked > 0 then tx.linked else tx.asset, TransactionFee, tx.user, stored, day)
            && AreLogs(main, tx.asset, Transaction, tx.user, stored, day)
            && AreLogs(linked, tx.linked, TransactionLinked, tx.user, stored, day)
    ensures |fee| == (if HasFee(tx) then 1 else 0) && |linked| == (if MovesLinked(tx) then 1 else 0)
    ensures |main| <= 1 && (!IsTrade(tx.code) ==> (|main| == 1 <==> MovesMain(tx)))
  {
    AppliedInStages(db, rates, day, row, tx);
    var (db1, stored) := RowStored(db, row, tx).value;
    var (db2, position) := PositionApplied(db1, rates, tx).value;
    var own := OwnCurrency(db, tx.asset);
    MovesAre(tx, own);
    fee := FeeLogs(db2, rates, day, tx, stored);
    main, linked := BothLogs(FeeCharged(db2, rates, day, tx, stored).value, rates,
                             MainPosting(tx, own, position, stored, day), LinkedPosting(tx, stored, day));
  }

  /** Fee rows that name no account are passed over, and do not keep a reversal from succeeding. */
  lemma {:induction false} FeesWithoutAccount(db: Tables, rates: Rates, children: seq<Row>, user: int,
                                              currency: Currency, row: int, day: int)
    requires forall c :: c in children ==> c.tx.linked <= 0 && c.tx.asset <= 0
    ensures AllRefunded(db, rates, children, user, currency, row, day) == Some(db)
    decreases |children|
  {
    if children != [] {
      FeesWithoutAccount(db, rates, children[1..], user, currency, row, day);
    }
  }

  /** A reversal logs the fees given back, then its main and its linked posting. */
  lemma {:induction false} ReversedLogs(db: Tables, rates: Rates, day: int, user: int, row: int)
    returns (fees: seq<Log>, main: seq<Log>, linked: seq<Log>)
    requires Reversed(db, rates, day, user, row).Some? && FindRow(db.rows, row, user).Some?
    ensures var tx := FindRow(db.rows, row, user).value.tx;
            && Reversed(db, rates, day, user, row).value.logs == db.logs + fees + main + linked
            && (forall l :: l in fees ==>
                  l.source == FeeReversal && l.user == user && l.sourceId == row && l.day == day)
            && AreLogs(main, tx.asset, TransactionReversal, tx.user, row, day)
            && AreLogs(linked, tx.linked, LinkedReversal, tx.user, row, day)
    ensures |main| <= 1 && |linked| <= 1
  {
    var tx := FindRow(db.rows, row, user).value.tx;
    fees := RefundLogs(db, rates, FeeChildren(db.rows, user, row), user, tx.currency, row, day);
    var refunded := AllRefunded(db, rates, FeeChildren(db.rows, user, row), user, tx.currency, row, day).value;
    var db1 := refunded.(rows := WithoutChildren(refunded.rows, user, row));
    var (db2, position) := PositionRolledBack(db1, rates, tx);
    var own := OwnCurrency(db, tx.asset);
    main, linked := BothLogs(db2, rates, MainReversal(tx, own, position, row, day), LinkedReversalOf(tx, row, day));
  }

  lemma {:induction false} RefundLogs(db: Tables, rates: Rates, children: seq<Row>, user: int, currency: Currency,
                                      row: int, day: int) returns (logs: seq<Log>)
    requires AllRefunded(db, rates, children, user, currency, row, day).Some?
    ensures AllRefunded(db, rates, children, user, currency, row, day).value.logs == db.logs + logs
    ensures forall l :: l in logs ==> l.source == FeeReversal && l.user == user && l.sourceId == row && l.day == day
    decreases |children|
  {
    logs := [];
    if children != [] {
      var db1 := Refunded(db, rates, children[0], user, currency, row, day).value;
      if FeeTarget(children[0].tx) > 0 {
        logs := PostLogs(db, rates, RefundPosting(children[0], user, currency, row, day));
      }
      var more := RefundLogs(db1, rates, children[1..], user, currency, row, day);
      logs := logs + more;
    }
  }

  // ---------------------------------------------------------------------------------------
  // Prices in other currencies

  /** A price in the asset's own currency is its net value as it is; that of nothing is nothing. */
  lemma {:induction false} OwnPrice(price: int, from: Currency, to: Currency, rates: Rates)
    ensures Canonical(from) == Canonical(to) ==> ConvertPrice(price, from, to, rates) == price
    ensures ConvertPrice(0, from, to, rates) == 0
  {
  }

  lemma {:induction false} Cents(price: int)
    requires price % 100 == 0
    ensures Round(Decimal(price, P.QUANTITY_SCALE), 2).m == price / 100
  {
    assert Pow10(2) == 100;
    HalfUpExact(price / 100, 100);
  }

  lemma {:induction false} DollarsAt(units: int, rates: Rates, m: int)
    requires rates(Plain("USD"), Plain("CNY")) == Decimal(m, 0)
    ensures Convert(Money(units, Plain("USD")), Plain("CNY"), rates) == Money(units * m, Plain("CNY"))
  {
    DollarsAreNoYuan();
    assert Pow10(0) == 1;
    assert units == 0 ==> units * m == 0;
  }

  lemma {:induction false} CentsAsPrice(units: int)
    ensures Round(Amount(Money(units, Plain("CNY"))), P.QUANTITY_SCALE).m == 100 * units
  {
    assert Pow10(2) == 100;
  }

  lemma {:induction false} DollarsAreNoYuan()
    ensures Canonical(Plain("USD")) != Canonical(Plain("CNY")) && Precision(Plain("USD")) == 2
  {
    assert "USD"[0] != "CNY"[0];
  }

  lemma {:induction false} OtherPrice(price: int, from: Currency, to: Currency, rates: Rates, p: nat)
    requires price != 0 && Canonical(from) != Canonical(to) && p == Precision(from)
    ensures var rounded := Round(Decimal(price, P.QUANTITY_SCALE), p).m;
            ConvertPrice(price, from, to, rates)
            == Round(Amount(Convert(Money(rounded, from), to, rates)), P.QUANTITY_SCALE).m
  {
  }

  lemma {:induction false} Times100(cents: int, m: int)
    ensures 100 * (cents * m) == (100 * cents) * m
  {
  }

  /** At a rate of `m` whole units of the asset's currency a price of whole cents is `m` times as high. */
  lemma {:induction false} PriceFollowsRate(price: int, rates: Rates, m: int)
    requires rates(Plain("USD"), Plain("CNY")) == Decimal(m, 0) && price % 100 == 0
    ensures ConvertPrice(price, Plain("USD"), Plain("CNY"), rates) == price * m
  {
    var cents := price / 100;
    if price == 0 {
      OwnPrice(0, Plain("USD"), Plain("CNY"), rates);
    } else {
      DollarsAreNoYuan();
      OtherPrice(price, Plain("USD"), Plain("CNY"), rates, 2);
      Cents(price);
      DollarsAt(cents, rates, m);
      CentsAsPrice(cents * m);
    }
    Times100(cents, m);
    assert 100 * cents == price;
  }

  lemma {:induction false} PaidInDollars(tx: Tx, rates: Rates, m: int)
    requires tx.currency == Plain("USD") && rates(Plain("USD"), Plain("CNY")) == Decimal(m, 0)
    ensures Paid(tx, Plain("CNY"), rates) == tx.amount * m + tx.fee * m
  {
    DollarsAt(tx.amount, rates, m);
    DollarsAt(tx.fee, rates, m);
  }

  /**
    * A buy in dollars of an asset in CNY, at a rate of `m` CNY: the quantity grows by what was bought, the cost
    * by amount and fee at that rate, and the net value is the price at it.
    */
  lemma {:induction false} BuyInDollars(a: Asset, tx: Tx, rates: Rates, m: int)
    requires tx.code == Buy && tx.currency == Plain("USD") && a.currency == Plain("CNY") && tx.price % 100 == 0
    requires rates(Plain("USD"), Plain("CNY")) == Decimal(m, 0)
    ensures AfterTrade(a, tx, rates)
            == Some(P.Holding(a.holding.quantity + tx.quantity, a.holding.cost + (tx.amount * m + tx.fee * m),
                              tx.price * m))
  {
    PriceFollowsRate(tx.price, rates, m);
    PaidInDollars(tx, rates, m);
  }
}
