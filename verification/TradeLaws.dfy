/** What buying, selling and taking either back do to the books. */
module TradeLaws {
  import opened Prelude
  import opened Decimals
  import opened TxTypes
  import opened Books
  import opened LedgerLaws
  import P = Position

  /** The books after the trade's row is stored and its position moved, and the delta still to be posted. */
  function Moved(db: Tables, rates: Rates, tx: Tx): Option<(Tables, int)> {
    PositionApplied(Inserted(db, tx, 0), rates, tx)
  }

  lemma {:induction false} TradeSettles(db: Tables, rates: Rates, day: int, tx: Tx)
    requires IsTrade(tx.code) && Applied(db, rates, day, 0, tx).Some?
    ensures tx.user > 0 && tx.asset > 0 && Moved(db, rates, tx).Some?
    ensures var (moved, position) := Moved(db, rates, tx).value;
            var settled := Settled(moved, rates, day, tx, OwnCurrency(db, tx.asset), position, db.nextRow);
            settled.Some? && Applied(db, rates, day, 0, tx).value == (settled.value, db.nextRow)
  {
  }

  /** A fee is taken from the asset itself when there is no funding account, or it is its own. */
  function OwnFee(a: Asset, tx: Tx, rates: Rates): int {
    if ChargesFee(tx) && FeeTarget(tx) == tx.asset then Convert(Money(tx.fee, tx.currency), a.currency, rates).units
    else 0
  }

  /** What a trade that is its own funding account pays to the asset, or takes from it. */
  function OwnFunds(a: Asset, tx: Tx, rates: Rates): int {
    if tx.linked == tx.asset then Convert(LinkedMoney(tx), a.currency, rates).units else 0
  }

  /** An investment is no liability: what is posted to it arrives as it is. */
  lemma {:induction false} OwnEffect(a: Asset, p: Posting, rates: Rates)
    requires IsInvestment(a.kind)
    ensures Effect(a, p.asset, p, rates) == Convert(p.delta, a.currency, rates).units
  {
    if p.delta.units == 0 {
      ConvertOdd(p.delta, a.currency, rates);
    }
  }

  lemma {:induction false} OwnDelta(a: Asset, p: Posting, rates: Rates)
    requires IsInvestment(a.kind) && p.delta.currency == a.currency
    ensures Effect(a, p.asset, p, rates) == p.delta.units
  {
  }

  lemma {:induction false} OwnFeeEffect(a: Asset, tx: Tx, row: int, day: int, rates: Rates)
    requires IsInvestment(a.kind)
    ensures FeeEffect(a, tx.asset, tx, row, day, rates) == -OwnFee(a, tx, rates)
  {
    var p := FeePosting(tx, row, day);
    if ChargesFee(tx) && FeeTarget(tx) == tx.asset {
      OwnEffect(a, p, rates);
      assert p.delta == Neg(Money(tx.fee, tx.currency));
      ConvertOdd(Money(tx.fee, tx.currency), a.currency, rates);
    } else {
      assert FeeEffect(a, tx.asset, tx, row, day, rates) == 0;
    }
  }

  lemma {:induction false} OwnFundsEffect(a: Asset, tx: Tx, row: int, day: int, rates: Rates)
    requires IsInvestment(a.kind)
    ensures Effect(a, tx.asset, LinkedPosting(tx, row, day), rates) == OwnFunds(a, tx, rates)
    ensures Effect(a, tx.asset, LinkedReversalOf(tx, row, day), rates) == -OwnFunds(a, tx, rates)
  {
    if tx.linked == tx.asset {
      OwnEffect(a, LinkedPosting(tx, row, day), rates);
      OwnEffect(a, LinkedReversalOf(tx, row, day), rates);
      ConvertOdd(LinkedMoney(tx), a.currency, rates);
    }
  }

  /** The transaction moves the position of the asset. */
  predicate Trades(db: Tables, tx: Tx, id: int) { tx.asset == id && HasPosition(db, tx) }

  lemma {:induction false} AppliedInStages(db: Tables, rates: Rates, day: int, id: int, tx: Tx)
    requires Applied(db, rates, day, id, tx).Some?
    ensures tx.asset > 0 && RowStored(db, id, tx).Some?
    ensures var (db1, row) := RowStored(db, id, tx).value;
            && db1.assets == db.assets && PositionApplied(db1, rates, tx).Some?
            && var (db2, position) := PositionApplied(db1, rates, tx).value;
               var settled := Settled(db2, rates, day, tx, OwnCurrency(db, tx.asset), position, row);
               && db2.rows == db1.rows && db2.nextRow == db1.nextRow
               && settled.Some? && Applied(db, rates, day, id, tx).value == (settled.value, row)
  {
  }

  /**
    * After a trade, with a new row or an old one, the asset has the new holding, and its balance is the
    * holding's market value, less the fee when no other account pays it, and with its own payment when it is
    * its own funding account.
    */
  lemma {:induction false} TradeIsMarked(db: Tables, rates: Rates, day: int, row: int, tx: Tx, id: int)
    requires Applied(db, rates, day, row, tx).Some? && id in db.assets && Trades(db, tx, id)
    ensures var db1, a := Applied(db, rates, day, row, tx).value.0, db.assets[id];
            && AfterTrade(a, tx, rates).Some? && id in db1.assets
            && var h := AfterTrade(a, tx, rates).value;
               db1.assets[id] == a.(holding := h, value := P.MarketValue(h.net, h.quantity, Precision(a.currency))
                                                           - OwnFee(a, tx, rates) + OwnFunds(a, tx, rates))
  {
    AppliedInStages(db, rates, day, row, tx);
    var (db1, stored) := RowStored(db, row, tx).value;
    var (db2, position) := PositionApplied(db1, rates, tx).value;
    var a, own := db2.assets[id], OwnCurrency(db, tx.asset);
    SettledEffect(db2, rates, day, tx, own, position, stored, id);
    OwnDelta(a, MainPosting(tx, own, position, stored, day), rates);
    OwnFeeEffect(a, tx, stored, day, rates);
    OwnFundsEffect(a, tx, stored, day, rates);
  }

  lemma {:induction false} AppliedLeaves(db: Tables, rates: Rates, day: int, row: int, tx: Tx, id: int)
    requires Applied(db, rates, day, row, tx).Some? && id in db.assets && !Trades(db, tx, id)
    ensures var db1 := Applied(db, rates, day, row, tx).value.0;
            id in db1.assets && db1.assets[id] == db.assets[id].(value := db1.assets[id].value)
  {
    AppliedInStages(db, rates, day, row, tx);
    var (db1, stored) := RowStored(db, row, tx).value;
    var (db2, position) := PositionApplied(db1, rates, tx).value;
    SettledEffect(db2, rates, day, tx, OwnCurrency(db, tx.asset), position, stored, id);
  }

  // ---------------------------------------------------------------------------------------
  // Taking a trade back

  lemma {:induction false} TradeRows(db: Tables, rates: Rates, day: int, tx: Tx)
    requires FreshRows(db) && IsTrade(tx.code) && Applied(db, rates, day, 0, tx).Some?
    ensures var rows, row := Applied(db, rates, day, 0, tx).value.0.rows, db.nextRow;
            && FindRow(rows, row, tx.user) == Some(Row(row, tx, 0))
            && FeeChildren(rows, tx.user, row) == (if ChargesFee(tx) then [Row(row + 1, FeeRow(tx), row)] else [])
            && WithoutChildren(rows, tx.user, row) == db.rows + [Row(row, tx, 0)]
  {
    TradeSettles(db, rates, day, tx);
    var (moved, position) := Moved(db, rates, tx).value;
    assert moved.rows == db.rows + [Row(db.nextRow, tx, 0)] && moved.nextRow == db.nextRow + 1;
    SettledRows(moved, rates, day, tx, OwnCurrency(db, tx.asset), position, db.nextRow);
    NewRows(db, tx);
  }

  /** The books once the fee is refunded and its row is gone. */
  function FeeBack(db: Tables, rates: Rates, day: int, tx: Tx, row: int): Option<Tables> {
    var refunded := if ChargesFee(tx) then PostedUnlessZero(db, rates, Refund(tx, row, day)) else Some(db);
    match refunded
    case Some(r) => Some(r.(rows := WithoutChildren(r.rows, tx.user, row)))
    case None => None
  }

  lemma {:induction false} ReverseTradeUnfolds(db: Tables, rates: Rates, day: int, tx: Tx, row: int)
    requires tx.user > 0 && tx.asset > 0 && row > 0 && IsTrade(tx.code)
    requires FindRow(db.rows, row, tx.user) == Some(Row(row, tx, 0))
    requires FeeChildren(db.rows, tx.user, row) == if ChargesFee(tx) then [Row(row + 1, FeeRow(tx), row)] else []
    ensures var back := FeeBack(db, rates, day, tx, row);
            Reversed(db, rates, day, tx.user, row)
            == if back.None? then None
               else
                 var (rolled, position) := PositionRolledBack(back.value, rates, tx);
                 BothPosted(rolled, rates, MainReversal(tx, OwnCurrency(db, tx.asset), position, row, day),
                            LinkedReversalOf(tx, row, day))
  {
    if ChargesFee(tx) {
      RefundsOne(db, rates, day, tx, row);
    }
  }

  /** What a trade adds to an account other than the traded asset: its fee and what is paid for it. */
  function FundingEffect(a: Asset, id: int, tx: Tx, rates: Rates): int {
    FeeEffect(a, id, tx, 0, 0, rates) + Effect(a, id, LinkedPosting(tx, 0, 0), rates)
  }

  lemma {:induction false} TradeEffect(db: Tables, rates: Rates, day: int, tx: Tx, id: int)
    requires IsTrade(tx.code) && Applied(db, rates, day, 0, tx).Some? && id in db.assets && id != tx.asset
    ensures var db1, a := Applied(db, rates, day, 0, tx).value.0, db.assets[id];
            id in db1.assets && db1.assets[id] == a.(value := a.value + FundingEffect(a, id, tx, rates))
  {
    TradeSettles(db, rates, day, tx);
    var (moved, position) := Moved(db, rates, tx).value;
    SettledEffect(moved, rates, day, tx, OwnCurrency(db, tx.asset), position, db.nextRow, id);
  }

  lemma {:induction false} FeeBackEffect(db: Tables, rates: Rates, day: int, later: int, tx: Tx, row: int, id: int)
    requires FeeBack(db, rates, later, tx, row).Some? && id in db.assets
    ensures var back, a := FeeBack(db, rates, later, tx, row).value, db.assets[id];
            && SameButValues(db, back)
            && back.assets[id] == a.(value := a.value - FeeEffect(a, id, tx, row, day, rates))
  {
    if ChargesFee(tx) {
      PostEffect(db, rates, Refund(tx, row, later), id);
      OppositeEffect(db.assets[id], db.assets[id], id, FeePosting(tx, row, day), Refund(tx, row, later), rates);
    }
  }

  /** The position and both postings taken back, once the fee is. */
  function Reversal(db: Tables, rates: Rates, day: int, tx: Tx, row: int): Option<Tables>
    requires FeeBack(db, rates, day, tx, row).Some?
  {
    var (rolled, position) := PositionRolledBack(FeeBack(db, rates, day, tx, row).value, rates, tx);
    BothPosted(rolled, rates, MainReversal(tx, OwnCurrency(db, tx.asset), position, row, day),
               LinkedReversalOf(tx, row, day))
  }

  /** Once the fee is back, the position's asset and the funding account can be posted to as before. */
  lemma {:induction false} ReversalPostsTrade(moved: Tables, db: Tables, rates: Rates, day: int, later: int, tx: Tx,
                                              row: int)
    requires IsTrade(tx.code) && tx.user > 0 && FeeBack(db, rates, later, tx, row).Some?
    requires SameButValues(moved, FeeBack(db, rates, later, tx, row).value)
    requires LinkedMoney(tx).units != 0 ==> CanPost(moved, LinkedPosting(tx, row, day))
    ensures Reversal(db, rates, later, tx, row).Some?
  {
    var (rolled, position) := PositionRolledBack(FeeBack(db, rates, later, tx, row).value, rates, tx);
    BothGoThrough(rolled, rates, MainReversal(tx, OwnCurrency(db, tx.asset), position, row, later),
                  LinkedReversalOf(tx, row, later));
  }

  /** Taking a trade back right after it always succeeds, whatever the rates are by then. */
  lemma {:induction false} ReverseTradeGoesThrough(db: Tables, rates: Rates, rates': Rates, day: int, later: int,
                                                   tx: Tx)
    requires FreshRows(db) && IsTrade(tx.code) && Applied(db, rates, day, 0, tx).Some?
    ensures var db1, row := Applied(db, rates, day, 0, tx).value.0, db.nextRow;
            && FeeBack(db1, rates', later, tx, row).Some? && Reversal(db1, rates', later, tx, row).Some?
            && Reversed(db1, rates', later, tx.user, row) == Reversal(db1, rates', later, tx, row)
  {
    var db1, row := Applied(db, rates, day, 0, tx).value.0, db.nextRow;
    TradeSettles(db, rates, day, tx);
    TradeRows(db, rates, day, tx);
    ReverseTradeUnfolds(db1, rates', later, tx, row);
    var (moved, position) := Moved(db, rates, tx).value;
    SettledPosts(moved, rates, day, tx, OwnCurrency(db, tx.asset), position, row);
    RefundPosts(moved, db1, rates', day, later, tx, row);
    ReversalPostsTrade(moved, db1, rates', day, later, tx, row);
  }

  lemma {:induction false} SameFunding(a: Asset, a': Asset, id: int, tx: Tx, rates: Rates)
    requires a'.kind == a.kind && a'.currency == a.currency
    ensures FundingEffect(a', id, tx, rates) == FundingEffect(a, id, tx, rates)
  {
  }

  /** In an account's own currency it is the same at all rates. */
  lemma {:induction false} OwnFundingNeedsNoRates(a: Asset, id: int, tx: Tx, rates: Rates, rates': Rates)
    requires Canonical(a.currency) == Canonical(tx.currency)
    ensures FundingEffect(a, id, tx, rates') == FundingEffect(a, id, tx, rates)
  {
  }

  /** Reversing a trade takes it off again, at the rates of the reversal. */
  lemma {:induction false} ReversalTakesFunding(db: Tables, rates: Rates, day: int, tx: Tx, row: int, id: int)
    requires FeeBack(db, rates, day, tx, row).Some? && Reversal(db, rates, day, tx, row).Some?
    requires id in db.assets && id != tx.asset
    ensures var db1, a := Reversal(db, rates, day, tx, row).value, db.assets[id];
            id in db1.assets && db1.assets[id] == a.(value := a.value - FundingEffect(a, id, tx, rates))
  {
    var a := db.assets[id];
    FeeBackEffect(db, rates, 0, day, tx, row, id);
    var (rolled, position) := PositionRolledBack(FeeBack(db, rates, day, tx, row).value, rates, tx);
    var main := MainReversal(tx, OwnCurrency(db, tx.asset), position, row, day);
    BothEffect(rolled, rates, main, LinkedReversalOf(tx, row, day), id);
    OppositeEffect(a, rolled.assets[id], id, LinkedPosting(tx, 0, 0), LinkedReversalOf(tx, row, day), rates);
  }

  /**
    * Taking a trade back leaves every other account, the funding account and where the fee came from, off by
    * what was posted to it at the rates of the trade less the same at those of the reversal; so an account
    * is restored exactly if these are equal, as they are in its own currency.
    */
  lemma {:induction false} ReverseTradeRestoresOthers(db: Tables, rates: Rates, rates': Rates, day: int, later: int,
                                                      tx: Tx, id: int)
    requires FreshRows(db) && IsTrade(tx.code) && Applied(db, rates, day, 0, tx).Some?
    requires id in db.assets && id != tx.asset
    ensures var reversed := Reversed(Applied(db, rates, day, 0, tx).value.0, rates', later, tx.user, db.nextRow);
            var a, left := db.assets[id],
                FundingEffect(db.assets[id], id, tx, rates) - FundingEffect(db.assets[id], id, tx, rates');
            && reversed.Some? && id in reversed.value.assets
            && reversed.value.assets[id] == a.(value := a.value + left)
            && (reversed.value.assets[id] == a <==> left == 0)
            && (Canonical(a.currency) == Canonical(tx.currency) ==> left == 0)
  {
    ReverseTradeLeaves(db, rates, rates', day, later, tx, id);
    if Canonical(db.assets[id].currency) == Canonical(tx.currency) {
      OwnFundingNeedsNoRates(db.assets[id], id, tx, rates, rates');
    }
  }

  lemma {:induction false} ReverseTradeLeaves(db: Tables, rates: Rates, rates': Rates, day: int, later: int, tx: Tx,
                                              id: int)
    requires FreshRows(db) && IsTrade(tx.code) && Applied(db, rates, day, 0, tx).Some?
    requires id in db.assets && id != tx.asset
    ensures var reversed := Reversed(Applied(db, rates, day, 0, tx).value.0, rates', later, tx.user, db.nextRow);
            var a := db.assets[id];
            && reversed.Some? && id in reversed.value.assets
            && reversed.value.assets[id]
               == a.(value := a.value + FundingEffect(a, id, tx, rates) - FundingEffect(a, id, tx, rates'))
  {
    var (db1, row) := Applied(db, rates, day, 0, tx).value;
    ReverseTradeGoesThrough(db, rates, rates', day, later, tx);
    TradeEffect(db, rates, day, tx, id);
    ReversalTakesFunding(db1, rates', later, tx, row, id);
    SameFunding(db.assets[id], db1.assets[id], id, tx, rates');
  }

  lemma {:induction false} RefundsKeep(db: Tables, rates: Rates, children: seq<Row>, user: int, currency: Currency,
                                       row: int, day: int)
    requires AllRefunded(db, rates, children, user, currency, row, day).Some?
    ensures var after := AllRefunded(db, rates, children, user, currency, row, day).value;
            SameButValues(db, after) && after.rows == db.rows && after.nextRow == db.nextRow
    decreases |children|
  {
    if children != [] {
      var db1 := Refunded(db, rates, children[0], user, currency, row, day).value;
      assert SameButValues(db, db1) && db1.rows == db.rows && db1.nextRow == db.nextRow;
      RefundsKeep(db1, rates, children[1..], user, currency, row, day);
    }
  }

  /** The books once all its fees are refunded and their rows are gone. */
  function FeesBack(db: Tables, rates: Rates, day: int, user: int, row: int, tx: Tx): Option<Tables> {
    match AllRefunded(db, rates, FeeChildren(db.rows, user, row), user, tx.currency, row, day)
    case Some(r) => Some(r.(rows := WithoutChildren(r.rows, user, row)))
    case None => None
  }

  lemma {:induction false} ReversedInStages(db: Tables, rates: Rates, day: int, user: int, row: int)
    requires Reversed(db, rates, day, user, row).Some?
    ensures user > 0 && row > 0 && FindRow(db.rows, row, user).Some?
    ensures var tx := FindRow(db.rows, row, user).value.tx;
            var back := FeesBack(db, rates, day, user, row, tx);
            && back.Some? && SameButValues(db, back.value) && back.value.nextRow == db.nextRow
            && back.value.rows == WithoutChildren(db.rows, user, row)
            && var (rolled, position) := PositionRolledBack(back.value, rates, tx);
               var posted := BothPosted(rolled, rates, MainReversal(tx, OwnCurrency(db, tx.asset), position, row, day),
                                        LinkedReversalOf(tx, row, day));
               rolled.rows == back.value.rows && rolled.nextRow == db.nextRow
               && posted.Some? && Reversed(db, rates, day, user, row) == posted
  {
    var tx := FindRow(db.rows, row, user).value.tx;
    RefundsKeep(db, rates, FeeChildren(db.rows, user, row), user, tx.currency, row, day);
  }

  /**
    * Taking a trade back marks the asset again, whatever else was done since and whatever the rates are: its
    * balance is the market value of the holding with the trade taken back, less what a trade that was its
    * own funding account gives back again.
    */
  lemma {:induction false} ReverseTradeIsMarked(db: Tables, rates: Rates, day: int, user: int, row: int, id: int)
    requires Reversed(db, rates, day, user, row).Some? && id in db.assets && id > 0
    requires FindRow(db.rows, row, user).Some? && Trades(db, FindRow(db.rows, row, user).value.tx, id)
    ensures var tx, a := FindRow(db.rows, row, user).value.tx, db.assets[id];
            var db1, h := Reversed(db, rates, day, user, row).value, WithoutTrade(a, tx, rates);
            && id in db1.assets
            && db1.assets[id] == a.(holding := h, value := P.MarketValue(h.net, h.quantity, Precision(a.currency))
                                                           - OwnFunds(a, tx, rates))
  {
    ReversedInStages(db, rates, day, user, row);
    var tx := FindRow(db.rows, row, user).value.tx;
    var back := FeesBack(db, rates, day, user, row, tx).value;
    var (rolled, position) := PositionRolledBack(back, rates, tx);
    var a, own := rolled.assets[id], OwnCurrency(db, tx.asset);
    SameTrade(db.assets[id], back.assets[id], tx, rates);
    BothEffect(rolled, rates, MainReversal(tx, own, position, row, day), LinkedReversalOf(tx, row, day), id);
    OwnDelta(a, MainReversal(tx, own, position, row, day), rates);
    OwnFundsEffect(a, tx, row, day, rates);
  }

  lemma {:induction false} ReversedLeaves(db: Tables, rates: Rates, day: int, user: int, row: int, id: int)
    requires Reversed(db, rates, day, user, row).Some? && id in db.assets
    requires FindRow(db.rows, row, user).Some? && !Trades(db, FindRow(db.rows, row, user).value.tx, id)
    ensures var db1 := Reversed(db, rates, day, user, row).value;
            id in db1.assets && db1.assets[id] == db.assets[id].(value := db1.assets[id].value)
  {
    ReversedInStages(db, rates, day, user, row);
    var tx := FindRow(db.rows, row, user).value.tx;
    var back := FeesBack(db, rates, day, user, row, tx).value;
    var (rolled, position) := PositionRolledBack(back, rates, tx);
    BothEffect(rolled, rates, MainReversal(tx, OwnCurrency(db, tx.asset), position, row, day),
               LinkedReversalOf(tx, row, day), id);
  }

  lemma {:induction false} SameTrade(a: Asset, a': Asset, tx: Tx, rates: Rates)
    requires IsTrade(tx.code) && a'.currency == a.currency && a'.holding == a.holding
    ensures WithoutTrade(a', tx, rates) == WithoutTrade(a, tx, rates)
  {
  }
}
