/** What postings do to the books, and what taking a transaction back restores. */
module LedgerLaws {
  import opened Prelude
  import opened Arith
  import opened Decimals
  import opened TxTypes
  import opened Books
  import P = Position

  // ---------------------------------------------------------------------------------------
  // The effect of a posting

  /** What a posting adds to the balance of the asset with the given id. */
  function Effect(a: Asset, id: int, p: Posting, rates: Rates): int {
    if id == p.asset && p.delta.units != 0 then Signed(a, p.delta, rates) else 0
  }

  ghost predicate SameButValues(db: Tables, db': Tables) {
    && db'.assets.Keys == db.assets.Keys
    && (forall id :: id in db.assets ==> db'.assets[id] == db.assets[id].(value := db'.assets[id].value))
  }

  lemma {:induction false} PostEffect(db: Tables, rates: Rates, p: Posting, id: int)
    requires PostedUnlessZero(db, rates, p).Some? && id in db.assets
    ensures var after := PostedUnlessZero(db, rates, p).value;
            && SameButValues(db, after) && after.rows == db.rows && after.nextRow == db.nextRow
            && after.assets[id].value == db.assets[id].value + Effect(db.assets[id], id, p, rates)
  {
  }

  /** The same posting with the opposite amount has the opposite effect. */
  lemma {:induction false} OppositeEffect(a: Asset, a': Asset, id: int, p: Posting, q: Posting, rates: Rates)
    requires a'.kind == a.kind && a'.currency == a.currency && q.asset == p.asset && q.delta == Neg(p.delta)
    ensures Effect(a', id, q, rates) == -Effect(a, id, p, rates)
  {
    ConvertOdd(p.delta, a.currency, rates);
  }

  lemma {:induction false} BothEffect(db: Tables, rates: Rates, main: Posting, linked: Posting, id: int)
    requires BothPosted(db, rates, main, linked).Some? && id in db.assets
    ensures var after, a := BothPosted(db, rates, main, linked).value, db.assets[id];
            && SameButValues(db, after) && after.rows == db.rows && after.nextRow == db.nextRow
            && after.assets[id].value == a.value + Effect(a, id, main, rates) + Effect(a, id, linked, rates)
  {
    PostEffect(db, rates, main, id);
    PostEffect(PostedUnlessZero(db, rates, main).value, rates, linked, id);
  }

  /** The fee's effect, if one is charged. */
  function FeeEffect(a: Asset, id: int, tx: Tx, row: int, day: int, rates: Rates): int {
    if ChargesFee(tx) then Effect(a, id, FeePosting(tx, row, day), rates) else 0
  }

  lemma {:induction false} SettledEffect(db: Tables, rates: Rates, day: int, tx: Tx, own: Currency, position: int,
                                         row: int, id: int)
    requires Settled(db, rates, day, tx, own, position, row).Some? && id in db.assets
    ensures var after, a := Settled(db, rates, day, tx, own, position, row).value, db.assets[id];
            && SameButValues(db, after)
            && after.rows == db.rows + (if ChargesFee(tx) then [Row(db.nextRow, FeeRow(tx), row)] else [])
            && after.assets[id].value == a.value + FeeEffect(a, id, tx, row, day, rates)
               + Effect(a, id, MainPosting(tx, own, position, row, day), rates)
               + Effect(a, id, LinkedPosting(tx, row, day), rates)
  {
    if ChargesFee(tx) {
      PostEffect(Inserted(db, FeeRow(tx), row), rates, FeePosting(tx, row, day), id);
    }
    var db1 := FeeCharged(db, rates, day, tx, row).value;
    BothEffect(db1, rates, MainPosting(tx, own, position, row, day), LinkedPosting(tx, row, day), id);
  }

  // ---------------------------------------------------------------------------------------
  // Applying and reversing

  ghost predicate RowsBelow(rows: seq<Row>, n: int) { forall r :: r in rows ==> r.id < n && r.parent < n }

  /** Row ids are handed out in order. */
  ghost predicate FreshRows(db: Tables) { db.nextRow > 0 && RowsBelow(db.rows, db.nextRow) }

  lemma {:induction false} OnlyNewRow(rows: seq<Row>, more: seq<Row>, row: Row, user: int)
    requires RowsBelow(rows, row.id)
    requires row.tx.user == user && row.parent != row.id
    requires more == [] || (|more| == 1 && more[0].parent == row.id)
    ensures FindRow(rows + [row] + more, row.id, user) == Some(row)
    ensures FeeChildren(rows + [row] + more, user, row.id) == FeeChildren(more, user, row.id)
    ensures WithoutChildren(rows + [row] + more, user, row.id) == rows + [row] + WithoutChildren(more, user, row.id)
  {
    var all := rows + [row] + more;
    if rows == [] {
      assert all == [row] + more && all[1..] == more;
    } else {
      assert all[0] == rows[0] && all[1..] == rows[1..] + [row] + more;
      OnlyNewRow(rows[1..], more, row, user);
    }
  }

  /** What the books look like after a transaction that is not a trade. */
  lemma {:induction false} AppliedSettles(db: Tables, rates: Rates, day: int, tx: Tx)
    requires !IsTrade(tx.code) && Applied(db, rates, day, 0, tx).Some?
    ensures tx.user > 0 && tx.asset > 0
    ensures var own := OwnCurrency(db, tx.asset);
            && Settled(Inserted(db, tx, 0), rates, day, tx, own, 0, db.nextRow).Some?
            && Applied(db, rates, day, 0, tx).value
               == (Settled(Inserted(db, tx, 0), rates, day, tx, own, 0, db.nextRow).value, db.nextRow)
  {
  }

  function Refund(tx: Tx, row: int, day: int): Posting {
    Posting(FeeTarget(tx), tx.user, Money(tx.fee, tx.currency), FeeReversal, row, day)
  }

  /** The rows after applying: the transaction's own, and the fee's if there is one. */
  lemma {:induction false} AppliedRows(db: Tables, rates: Rates, day: int, tx: Tx)
    requires FreshRows(db) && !IsTrade(tx.code) && Applied(db, rates, day, 0, tx).Some?
    ensures var rows, row := Applied(db, rates, day, 0, tx).value.0.rows, db.nextRow;
            && FindRow(rows, row, tx.user) == Some(Row(row, tx, 0))
            && FeeChildren(rows, tx.user, row) == (if ChargesFee(tx) then [Row(row + 1, FeeRow(tx), row)] else [])
            && WithoutChildren(rows, tx.user, row) == db.rows + [Row(row, tx, 0)]
  {
    AppliedSettles(db, rates, day, tx);
    SettledRows(Inserted(db, tx, 0), rates, day, tx, OwnCurrency(db, tx.asset), 0, db.nextRow);
    NewRows(db, tx);
  }

  /** The new rows are found, and the fee's among them, whatever rows there were before. */
  lemma {:induction false} NewRows(db: Tables, tx: Tx)
    requires FreshRows(db)
    ensures var row := db.nextRow;
            var more := if ChargesFee(tx) then [Row(row + 1, FeeRow(tx), row)] else [];
            var rows := db.rows + [Row(row, tx, 0)] + more;
            && FindRow(rows, row, tx.user) == Some(Row(row, tx, 0))
            && FeeChildren(rows, tx.user, row) == more
            && WithoutChildren(rows, tx.user, row) == db.rows + [Row(row, tx, 0)]
  {
    var more := if ChargesFee(tx) then [Row(db.nextRow + 1, FeeRow(tx), db.nextRow)] else [];
    OnlyNewRow(db.rows, more, Row(db.nextRow, tx, 0), tx.user);
    assert FeeChildren([], tx.user, db.nextRow) == [] && WithoutChildren([], tx.user, db.nextRow) == [];
  }

  lemma {:induction false} SettledRows(db: Tables, rates: Rates, day: int, tx: Tx, own: Currency, position: int,
                                       row: int)
    requires Settled(db, rates, day, tx, own, position, row).Some?
    ensures Settled(db, rates, day, tx, own, position, row).value.rows
            == db.rows + (if ChargesFee(tx) then [Row(db.nextRow, FeeRow(tx), row)] else [])
    ensures Settled(db, rates, day, tx, own, position, row).value.nextRow
            == db.nextRow + (if ChargesFee(tx) then 1 else 0)
  {
  }

  /** Which postings reverse a transaction with at most its one fee row. */
  lemma {:induction false} ReverseUnfolds(db: Tables, rates: Rates, day: int, tx: Tx, row: int)
    requires tx.user > 0 && tx.asset > 0 && row > 0 && !IsTrade(tx.code)
    requires FindRow(db.rows, row, tx.user) == Some(Row(row, tx, 0))
    requires FeeChildren(db.rows, tx.user, row) == if ChargesFee(tx) then [Row(row + 1, FeeRow(tx), row)] else []
    ensures var refunded := if ChargesFee(tx) then PostedUnlessZero(db, rates, Refund(tx, row, day)) else Some(db);
            Reversed(db, rates, day, tx.user, row)
            == if refunded.None? then None
               else BothPosted(refunded.value.(rows := WithoutChildren(refunded.value.rows, tx.user, row)), rates,
                               MainReversal(tx, OwnCurrency(db, tx.asset), 0, row, day), LinkedReversalOf(tx, row, day))
  {
    if ChargesFee(tx) {
      RefundsOne(db, rates, day, tx, row);
    }
    assert PositionRolledBack(db, rates, tx).1 == 0;
  }

  lemma {:induction false} RefundsOne(db: Tables, rates: Rates, day: int, tx: Tx, row: int)
    requires tx.asset > 0 && ChargesFee(tx)
    ensures AllRefunded(db, rates, [Row(row + 1, FeeRow(tx), row)], tx.user, tx.currency, row, day)
            == PostedUnlessZero(db, rates, Refund(tx, row, day))
  {
    var child := Row(row + 1, FeeRow(tx), row);
    assert RefundPosting(child, tx.user, tx.currency, row, day) == Refund(tx, row, day);
    assert [child][1..] == [];
  }

  /** Whoever was posted to can be posted to. */
  lemma {:induction false} SettledPosts(db: Tables, rates: Rates, day: int, tx: Tx, own: Currency, position: int,
                                        row: int)
    requires Settled(db, rates, day, tx, own, position, row).Some?
    ensures SameButValues(db, Settled(db, rates, day, tx, own, position, row).value)
    ensures ChargesFee(tx) ==> CanPost(db, FeePosting(tx, row, day))
    ensures MainDelta(tx, own, position).units != 0 ==> CanPost(db, MainPosting(tx, own, position, row, day))
    ensures LinkedMoney(tx).units != 0 ==> CanPost(db, LinkedPosting(tx, row, day))
  {
    var db1 := FeeCharged(db, rates, day, tx, row).value;
    assert SameButValues(db, db1);
    var main := MainPosting(tx, own, position, row, day);
    assert SameButValues(db, PostedUnlessZero(db1, rates, main).value);
  }

  lemma {:induction false} BothGoThrough(db: Tables, rates: Rates, main: Posting, linked: Posting)
    requires main.delta.units != 0 ==> CanPost(db, main)
    requires linked.delta.units != 0 ==> CanPost(db, linked)
    ensures BothPosted(db, rates, main, linked).Some?
    ensures var after := BothPosted(db, rates, main, linked).value; SameButValues(db, after) && after.rows == db.rows
  {
    assert SameButValues(db, PostedUnlessZero(db, rates, main).value);
  }

  /** Every posting of the reversal finds the asset that its counterpart found, whatever the rates are by then. */
  lemma {:induction false} ReverseGoesThrough(db: Tables, rates: Rates, rates': Rates, day: int, later: int, tx: Tx)
    requires FreshRows(db) && !IsTrade(tx.code) && Applied(db, rates, day, 0, tx).Some?
    ensures var (db1, row) := Applied(db, rates, day, 0, tx).value;
            && tx.user > 0 && tx.asset > 0 && row == db.nextRow
            && Reversed(db1, rates', later, tx.user, row).Some?
            && var db2 := Reversed(db1, rates', later, tx.user, row).value;
               SameButValues(db, db2) && db2.rows == db.rows + [Row(row, tx, 0)]
  {
    var (db1, row) := Applied(db, rates, day, 0, tx).value;
    AppliedSettles(db, rates, day, tx);
    AppliedRows(db, rates, day, tx);
    ReverseUnfolds(db1, rates', later, tx, row);
    var own := OwnCurrency(db, tx.asset);
    SettledPosts(Inserted(db, tx, 0), rates, day, tx, own, 0, row);
    RefundPosts(db, db1, rates', day, later, tx, row);
    var refunded := if ChargesFee(tx) then PostedUnlessZero(db1, rates', Refund(tx, row, later)).value else db1;
    ReversalPosts(db, refunded.(rows := WithoutChildren(refunded.rows, tx.user, row)), rates', day, later, tx, own,
                  row);
  }

  lemma {:induction false} RefundPosts(db: Tables, db1: Tables, rates: Rates, day: int, later: int, tx: Tx, row: int)
    requires SameButValues(db, db1) && (ChargesFee(tx) ==> CanPost(db, FeePosting(tx, row, day)))
    ensures ChargesFee(tx) ==>
              && PostedUnlessZero(db1, rates, Refund(tx, row, later)).Some?
              && var after := PostedUnlessZero(db1, rates, Refund(tx, row, later)).value;
                 SameButValues(db, after) && after.rows == db1.rows
  {
  }

  lemma {:induction false} ReversalPosts(db: Tables, db1: Tables, rates: Rates, day: int, later: int, tx: Tx,
                                         own: Currency, row: int)
    requires SameButValues(db, db1) && !IsTrade(tx.code)
    requires MainDelta(tx, own, 0).units != 0 ==> CanPost(db, MainPosting(tx, own, 0, row, day))
    requires LinkedMoney(tx).units != 0 ==> CanPost(db, LinkedPosting(tx, row, day))
    ensures var r := BothPosted(db1, rates, MainReversal(tx, own, 0, row, later), LinkedReversalOf(tx, row, later));
            r.Some? && SameButValues(db, r.value) && r.value.rows == db1.rows
  {
    BothGoThrough(db1, rates, MainReversal(tx, own, 0, row, later), LinkedReversalOf(tx, row, later));
  }

  /** What a transaction adds to an account at given rates: its fee, main and linked posting. */
  function TxEffect(a: Asset, id: int, tx: Tx, rates: Rates): int {
    FeeEffect(a, id, tx, 0, 0, rates) + Effect(a, id, MainPosting(tx, NoCurrency, 0, 0, 0), rates)
    + Effect(a, id, LinkedPosting(tx, 0, 0), rates)
  }

  lemma {:induction false} AppliedAdds(db: Tables, rates: Rates, day: int, tx: Tx, id: int)
    requires !IsTrade(tx.code) && Applied(db, rates, day, 0, tx).Some? && id in db.assets
    ensures var db1, a := Applied(db, rates, day, 0, tx).value.0, db.assets[id];
            id in db1.assets && db1.assets[id] == a.(value := a.value + TxEffect(a, id, tx, rates))
  {
    AppliedSettles(db, rates, day, tx);
    SettledEffect(Inserted(db, tx, 0), rates, day, tx, OwnCurrency(db, tx.asset), 0, db.nextRow, id);
  }

  lemma {:induction false} RefundTakes(db: Tables, rates: Rates, tx: Tx, row: int, day: int, id: int)
    requires ChargesFee(tx) && PostedUnlessZero(db, rates, Refund(tx, row, day)).Some? && id in db.assets
    ensures var after, a := PostedUnlessZero(db, rates, Refund(tx, row, day)).value, db.assets[id];
            SameButValues(db, after) && after.assets[id] == a.(value := a.value - FeeEffect(a, id, tx, 0, 0, rates))
  {
    PostEffect(db, rates, Refund(tx, row, day), id);
    OppositeEffect(db.assets[id], db.assets[id], id, FeePosting(tx, 0, 0), Refund(tx, row, day), rates);
  }

  lemma {:induction false} ReversalTakes(db: Tables, rates: Rates, tx: Tx, own: Currency, row: int, day: int, id: int)
    requires !IsTrade(tx.code) && id in db.assets
    requires BothPosted(db, rates, MainReversal(tx, own, 0, row, day), LinkedReversalOf(tx, row, day)).Some?
    ensures var main, linked := MainReversal(tx, own, 0, row, day), LinkedReversalOf(tx, row, day);
            var after, a := BothPosted(db, rates, main, linked).value, db.assets[id];
            && SameButValues(db, after)
            && after.assets[id] == a.(value := a.value - Effect(a, id, MainPosting(tx, NoCurrency, 0, 0, 0), rates)
                                               - Effect(a, id, LinkedPosting(tx, 0, 0), rates))
  {
    var a, main, linked := db.assets[id], MainReversal(tx, own, 0, row, day), LinkedReversalOf(tx, row, day);
    BothEffect(db, rates, main, linked, id);
    OppositeEffect(a, a, id, MainPosting(tx, NoCurrency, 0, 0, 0), main, rates);
    OppositeEffect(a, a, id, LinkedPosting(tx, 0, 0), linked, rates);
  }

  /** Reversing takes off every account what the transaction would add to it at the rates of the reversal. */
  lemma {:induction false} ReversedTakes(db: Tables, rates: Rates, day: int, tx: Tx, row: int, id: int)
    requires tx.user > 0 && tx.asset > 0 && row > 0 && !IsTrade(tx.code) && id in db.assets
    requires FindRow(db.rows, row, tx.user) == Some(Row(row, tx, 0))
    requires FeeChildren(db.rows, tx.user, row) == if ChargesFee(tx) then [Row(row + 1, FeeRow(tx), row)] else []
    requires Reversed(db, rates, day, tx.user, row).Some?
    ensures var db1, a := Reversed(db, rates, day, tx.user, row).value, db.assets[id];
            id in db1.assets && db1.assets[id] == a.(value := a.value - TxEffect(a, id, tx, rates))
  {
    ReverseUnfolds(db, rates, day, tx, row);
    if ChargesFee(tx) {
      RefundTakes(db, rates, tx, row, day, id);
    }
    var refunded := if ChargesFee(tx) then PostedUnlessZero(db, rates, Refund(tx, row, day)).value else db;
    SameEffects(db.assets[id], refunded.assets[id], id, tx, rates);
    ReversalTakes(refunded.(rows := WithoutChildren(refunded.rows, tx.user, row)), rates, tx,
                  OwnCurrency(db, tx.asset), row, day, id);
  }

  lemma {:induction false} SameEffects(a: Asset, a': Asset, id: int, tx: Tx, rates: Rates)
    requires a'.kind == a.kind && a'.currency == a.currency
    ensures FeeEffect(a', id, tx, 0, 0, rates) == FeeEffect(a, id, tx, 0, 0, rates)
    ensures Effect(a', id, MainPosting(tx, NoCurrency, 0, 0, 0), rates)
            == Effect(a, id, MainPosting(tx, NoCurrency, 0, 0, 0), rates)
    ensures Effect(a', id, LinkedPosting(tx, 0, 0), rates) == Effect(a, id, LinkedPosting(tx, 0, 0), rates)
  {
  }

  /** What is posted in an account's own currency is the same at all rates. */
  lemma {:induction false} OwnCurrencyNeedsNoRates(a: Asset, id: int, tx: Tx, rates: Rates, rates': Rates)
    requires !IsTrade(tx.code) && Canonical(a.currency) == Canonical(tx.currency)
    ensures TxEffect(a, id, tx, rates') == TxEffect(a, id, tx, rates)
  {
  }

  /** What applying at some rates and reversing at others leaves on an account. */
  lemma {:induction false} ReverseLeaves(db: Tables, rates: Rates, rates': Rates, day: int, later: int, tx: Tx, id: int)
    requires FreshRows(db) && !IsTrade(tx.code) && Applied(db, rates, day, 0, tx).Some? && id in db.assets
    ensures var (db1, row) := Applied(db, rates, day, 0, tx).value;
            var a := db.assets[id];
            && Reversed(db1, rates', later, tx.user, row).Some?
            && id in Reversed(db1, rates', later, tx.user, row).value.assets
            && Reversed(db1, rates', later, tx.user, row).value.assets[id]
               == a.(value := a.value + TxEffect(a, id, tx, rates) - TxEffect(a, id, tx, rates'))
  {
    ReverseGoesThrough(db, rates, rates', day, later, tx);
    AppliedRows(db, rates, day, tx);
    AppliedAdds(db, rates, day, tx, id);
    var (db1, row) := Applied(db, rates, day, 0, tx).value;
    ReversedTakes(db1, rates', later, tx, row, id);
    SameEffects(db.assets[id], db1.assets[id], id, tx, rates');
  }

  /** What is off on an account after applying at some rates and reversing at others. */
  function Residual(a: Asset, id: int, tx: Tx, rates: Rates, rates': Rates): int {
    TxEffect(a, id, tx, rates) - TxEffect(a, id, tx, rates')
  }

  lemma {:induction false} OwnCurrencyLeavesNothing(a: Asset, id: int, tx: Tx, rates: Rates, rates': Rates)
    requires !IsTrade(tx.code)
    ensures Canonical(a.currency) == Canonical(tx.currency) || rates == rates' ==>
              Residual(a, id, tx, rates, rates') == 0
  {
    if Canonical(a.currency) == Canonical(tx.currency) {
      OwnCurrencyNeedsNoRates(a, id, tx, rates, rates');
    }
  }

  /** Every account is off by its residual. */
  ghost predicate OffByResiduals(before: map<int, Asset>, after: map<int, Asset>, tx: Tx, rates: Rates, rates': Rates)
  {
    && after.Keys == before.Keys
    && forall id :: id in before ==>
         after[id] == before[id].(value := before[id].value + Residual(before[id], id, tx, rates, rates'))
  }

  lemma {:induction false} ReverseLeavesResiduals(db: Tables, rates: Rates, rates': Rates, day: int, later: int, tx: Tx)
    requires FreshRows(db) && !IsTrade(tx.code) && Applied(db, rates, day, 0, tx).Some?
    ensures var (db1, row) := Applied(db, rates, day, 0, tx).value;
            && Reversed(db1, rates', later, tx.user, row).Some?
            && OffByResiduals(db.assets, Reversed(db1, rates', later, tx.user, row).value.assets, tx, rates, rates')
  {
    var (db1, row) := Applied(db, rates, day, 0, tx).value;
    ReverseGoesThrough(db, rates, rates', day, later, tx);
    var after := Reversed(db1, rates', later, tx.user, row).value.assets;
    forall id | id in db.assets
      ensures after[id]
              == db.assets[id].(value := db.assets[id].value + Residual(db.assets[id], id, tx, rates, rates'))
    {
      ReverseLeaves(db, rates, rates', day, later, tx, id);
    }
  }

  lemma {:induction false} RestoredExactly(before: map<int, Asset>, after: map<int, Asset>, tx: Tx, rates: Rates,
                                           rates': Rates)
    requires OffByResiduals(before, after, tx, rates, rates')
    ensures after == before <==> forall id :: id in before ==> Residual(before[id], id, tx, rates, rates') == 0
  {
    forall id | id in before
      ensures after[id] == before[id] <==> Residual(before[id], id, tx, rates, rates') == 0
    {
    }
  }

  /**
    * Taking a transaction back right away always succeeds, drops the fee row, and leaves each account off by
    * what its postings are worth at the rates of the application less at those of the reversal. All are
    * restored exactly if these are equal: at the same rates always, and at any rates when what is posted is
    * in its own currency. Only the transaction's own row and the audit log remember it.
    */
  lemma {:induction false} ReverseUndoesApply(db: Tables, rates: Rates, rates': Rates, day: int, later: int, tx: Tx)
    requires FreshRows(db) && !IsTrade(tx.code) && Applied(db, rates, day, 0, tx).Some?
    ensures var (db1, row) := Applied(db, rates, day, 0, tx).value;
            && Reversed(db1, rates', later, tx.user, row).Some?
            && var db2 := Reversed(db1, rates', later, tx.user, row).value;
               && db2.rows == db.rows + [Row(row, tx, 0)]
               && OffByResiduals(db.assets, db2.assets, tx, rates, rates')
               && (db2.assets == db.assets
                   <==> forall id :: id in db.assets ==> Residual(db.assets[id], id, tx, rates, rates') == 0)
    ensures forall id ::
              id in db.assets && (Canonical(db.assets[id].currency) == Canonical(tx.currency) || rates == rates') ==>
                Residual(db.assets[id], id, tx, rates, rates') == 0
  {
    var (db1, row) := Applied(db, rates, day, 0, tx).value;
    ReverseGoesThrough(db, rates, rates', day, later, tx);
    ReverseLeavesResiduals(db, rates, rates', day, later, tx);
    RestoredExactly(db.assets, Reversed(db1, rates', later, tx.user, row).value.assets, tx, rates, rates');
    forall id | id in db.assets && (Canonical(db.assets[id].currency) == Canonical(tx.currency) || rates == rates')
      ensures Residual(db.assets[id], id, tx, rates, rates') == 0
    {
      OwnCurrencyLeavesNothing(db.assets[id], id, tx, rates, rates');
    }
  }

  lemma {:induction false} AtTwoDecimals(units: int, m: int)
    ensures Round(Mul(Decimal(100 * units, 2), Decimal(m, 2)), 2).m == units * m
  {
    assert Pow10(2) == 100;
    Assoc(100, units, m);
    HalfUpExact(units * m, 100);
  }

  lemma {:induction false} HundredDollars(rates: Rates, m: int)
    requires rates(Plain("USD"), Plain("CNY")) == Decimal(m, 2)
    ensures Convert(Money(100_00, Plain("USD")), Plain("CNY"), rates).units == 100 * m
  {
    assert "USD"[0] != "CNY"[0];
    AtTwoDecimals(100, m);
  }

  lemma {:induction false} DepositIs(a: Asset, tx: Tx, rates: Rates, m: int)
    requires tx.code == Deposit && tx.linked <= 0 && tx.fee == 0 && tx.amount == 100_00 && tx.asset > 0
    requires tx.currency == Plain("USD") && a.currency == Plain("CNY") && !IsLiability(a.kind)
    requires rates(Plain("USD"), Plain("CNY")) == Decimal(m, 2)
    ensures TxEffect(a, tx.asset, tx, rates) == 100 * m
  {
    HundredDollars(rates, m);
    assert MainPosting(tx, NoCurrency, 0, 0, 0).delta == Money(100_00, Plain("USD"));
  }

  /** 100.00 USD paid into an account in CNY at 7.00 and taken back at 7.10: it is 10.00 CNY short. */
  lemma {:induction false} RatesMoveInBetween(db: Tables, rates: Rates, rates': Rates, day: int, later: int, tx: Tx)
    requires FreshRows(db) && Applied(db, rates, day, 0, tx).Some? && tx.asset in db.assets
    requires tx.code == Deposit && tx.linked <= 0 && tx.fee == 0 && tx.amount == 100_00
    requires tx.currency == Plain("USD") && db.assets[tx.asset].currency == Plain("CNY")
    requires !IsLiability(db.assets[tx.asset].kind)
    requires rates(Plain("USD"), Plain("CNY")) == Decimal(7_00, 2)
    requires rates'(Plain("USD"), Plain("CNY")) == Decimal(7_10, 2)
    ensures var (db1, row) := Applied(db, rates, day, 0, tx).value;
            && Reversed(db1, rates', later, tx.user, row).Some?
            && tx.asset in Reversed(db1, rates', later, tx.user, row).value.assets
            && Reversed(db1, rates', later, tx.user, row).value.assets[tx.asset].value
               == db.assets[tx.asset].value - 10_00
  {
    ReverseLeaves(db, rates, rates', day, later, tx, tx.asset);
    DepositIs(db.assets[tx.asset], tx, rates, 7_00);
    DepositIs(db.assets[tx.asset], tx, rates', 7_10);
  }

  // ---------------------------------------------------------------------------------------
  // Trades

  /**
    * A buy taken back at other rates: the quantity is as before exactly if it was not negative, and the cost
    * if it was not negative and the same amount was taken off as was paid, or there was none and more was
    * taken off. The net value stays that of the buy, or zero when nothing is left.
    */
  lemma {:induction false} BuyTakenBack(a: Asset, tx: Tx, rates: Rates, rates': Rates)
    requires tx.code == Buy && tx.quantity >= 0 && Paid(tx, a.currency, rates) >= 0
    ensures var bought := AfterTrade(a, tx, rates).value;
            var back := WithoutTrade(a.(holding := bought), tx, rates');
            var h, paid, off := a.holding, Paid(tx, a.currency, rates), Paid(tx, a.currency, rates');
            && (back.quantity == h.quantity <==> h.quantity >= 0)
            && (back.cost == h.cost <==> h.cost >= 0 && (off == paid || (h.cost == 0 && off > paid)))
            && (h.cost + paid > off ==> back.cost == h.cost + paid - off)
            && back.net == (if back.quantity == 0 then 0 else bought.net)
            && (Canonical(a.currency) == Canonical(tx.currency) ==> off == paid)
  {
  }

  /** Once the delta of a trade is posted, the asset's balance is the market value of its holding. */
  lemma {:induction false} PositionIsMarked(db: Tables, rates: Rates, tx: Tx, h: P.Holding, id: int, day: int)
    requires CanPost(db, Posting(tx.asset, tx.user, Money(0, NoCurrency), Transaction, id, day))
    requires !IsLiability(db.assets[tx.asset].kind)
    ensures var (db1, delta) := Repositioned(db, tx.asset, h);
            var own := db.assets[tx.asset].currency;
            var marking := Posting(tx.asset, tx.user, Money(delta, own), Transaction, id, day);
            var after := PostedUnlessZero(db1, rates, marking);
            && after.Some?
            && after.value.assets[tx.asset].holding == h
            && after.value.assets[tx.asset].value == P.MarketValue(h.net, h.quantity, Precision(own))
  {
  }
}
