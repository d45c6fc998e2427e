/** What failed calls that the ledger takes no notice of leave behind. */
module UnnoticedFailures {
  import opened Prelude
  import opened Decimals
  import opened TxTypes
  import opened Books
  import opened TradeLaws
  import opened TxMoves

  /** The same balances, positions and log; rows may differ. */
  predicate SameBooks(a: Tables, b: Tables) { a.assets == b.assets && a.logs == b.logs }

  predicate BothOrNone(a: Option<Tables>, b: Option<Tables>) {
    (a.Some? <==> b.Some?) && (a.Some? ==> SameBooks(a.value, b.value))
  }

  lemma {:induction false} PostsAlike(a: Tables, b: Tables, rates: Rates, p: Posting)
    requires SameBooks(a, b)
    ensures BothOrNone(PostedUnlessZero(a, rates, p), PostedUnlessZero(b, rates, p))
    ensures PostedUnlessZero(a, rates, p).Some? ==> PostedUnlessZero(a, rates, p).value.rows == a.rows
  {
  }

  lemma {:induction false} BothPostAlike(a: Tables, b: Tables, rates: Rates, p: Posting, q: Posting)
    requires SameBooks(a, b)
    ensures BothOrNone(BothPosted(a, rates, p, q), BothPosted(b, rates, p, q))
    ensures BothPosted(a, rates, p, q).Some? ==> BothPosted(a, rates, p, q).value.rows == a.rows
  {
    PostsAlike(a, b, rates, p);
    var a1, b1 := PostedUnlessZero(a, rates, p), PostedUnlessZero(b, rates, p);
    if a1.Some? {
      PostsAlike(a1.value, b1.value, rates, q);
    }
  }

  lemma {:induction false} SettlesAlike(db: Tables, rates: Rates, day: int, tx: Tx, own: Currency, position: int,
                                        row: int)
    ensures BothOrNone(SettledBut(db, rates, day, tx, own, position, row, true),
                       Settled(db, rates, day, tx, own, position, row))
    ensures SettledBut(db, rates, day, tx, own, position, row, true).Some? ==>
              SettledBut(db, rates, day, tx, own, position, row, true).value.rows == db.rows
  {
    var a, b := FeeChargedBut(db, rates, day, tx, row, true), FeeCharged(db, rates, day, tx, row);
    if ChargesFee(tx) {
      PostsAlike(db, Inserted(db, FeeRow(tx), row), rates, FeePosting(tx, row, day));
    }
    if a.Some? {
      BothPostAlike(a.value, b.value, rates, MainPosting(tx, own, position, row, day), LinkedPosting(tx, row, day));
    }
  }

  /** When the fee's row cannot be stored, the fee is charged and logged all the same, and only its row is missing. */
  lemma {:induction false} UnstoredFeeRow(db: Tables, rates: Rates, day: int, tx: Tx)
    ensures var but, all := AppliedBut(db, rates, day, 0, tx, Unnoticed(false, true)), Applied(db, rates, day, 0, tx);
            && (but.Some? <==> all.Some?)
            && (but.Some? ==> SameBooks(but.value.0, all.value.0) && but.value.1 == all.value.1
                              && but.value.0.rows == db.rows + [Row(db.nextRow, tx, 0)])
  {
    var (db1, row) := RowStored(db, 0, tx).value;
    var moved := PositionApplied(db1, rates, tx);
    if moved.Some? {
      SettlesAlike(moved.value.0, rates, day, tx, OwnCurrency(db, tx.asset), moved.value.1, row);
    }
  }

  lemma {:induction false} RollsBackAlike(a: Tables, b: Tables, rates: Rates, tx: Tx)
    requires SameBooks(a, b)
    ensures var (a1, x), (b1, y) := PositionRolledBack(a, rates, tx), PositionRolledBack(b, rates, tx);
            SameBooks(a1, b1) && x == y && a1.rows == a.rows
  {
  }

  lemma {:induction false} RefundsKeepRows(db: Tables, rates: Rates, children: seq<Row>, user: int,
                                           currency: Currency, row: int, day: int)
    requires AllRefunded(db, rates, children, user, currency, row, day).Some?
    ensures AllRefunded(db, rates, children, user, currency, row, day).value.rows == db.rows
  {
    RefundsKeep(db, rates, children, user, currency, row, day);
  }

  /** When the fee rows cannot be deleted, everything else is reversed all the same, and the rows stay. */
  lemma {:induction false} UndeletedFeeRows(db: Tables, rates: Rates, day: int, user: int, row: int)
    ensures var but, all := ReversedBut(db, rates, day, user, row, UnnoticedBack(false, true, false)),
                            Reversed(db, rates, day, user, row);
            && BothOrNone(but, all)
            && (but.Some? ==> but.value.rows == db.rows)
            && (all.Some? ==> all.value.rows == WithoutChildren(db.rows, user, row))
  {
    if user > 0 && row > 0 && FindRow(db.rows, row, user).Some? {
      var tx := FindRow(db.rows, row, user).value.tx;
      var refunded := AllRefunded(db, rates, FeeChildren(db.rows, user, row), user, tx.currency, row, day);
      if refunded.Some? {
        RefundsKeepRows(db, rates, FeeChildren(db.rows, user, row), user, tx.currency, row, day);
        var b := refunded.value.(rows := WithoutChildren(refunded.value.rows, user, row));
        RollsBackAlike(refunded.value, b, rates, tx);
        RollsBackAlike(b, refunded.value, rates, tx);
        var (rolled, position) := PositionRolledBack(refunded.value, rates, tx);
        var main := MainReversal(tx, OwnCurrency(db, tx.asset), position, row, day);
        BothPostAlike(rolled, PositionRolledBack(b, rates, tx).0, rates, main, LinkedReversalOf(tx, row, day));
        BothPostAlike(PositionRolledBack(b, rates, tx).0, rolled, rates, main, LinkedReversalOf(tx, row, day));
      }
    }
  }

  /** When the fee rows cannot be read, no fee is given back, and the rows stay. */
  lemma {:induction false} UnreadFeeRows(db: Tables, rates: Rates, day: int, user: int, row: int, u: UnnoticedBack)
    returns (main: seq<Log>, linked: seq<Log>)
    requires u.children && ReversedBut(db, rates, day, user, row, u).Some? && FindRow(db.rows, row, user).Some?
    ensures var tx, db1 := FindRow(db.rows, row, user).value.tx, ReversedBut(db, rates, day, user, row, u).value;
            && db1.rows == db.rows && db1.logs == db.logs + main + linked
            && AreLogs(main, tx.asset, TransactionReversal, tx.user, row, day)
            && AreLogs(linked, tx.linked, LinkedReversal, tx.user, row, day)
  {
    var tx := FindRow(db.rows, row, user).value.tx;
    var (rolled, position) := if u.position then (db, 0) else PositionRolledBack(db, rates, tx);
    var p, q := MainReversal(tx, OwnCurrency(db, tx.asset), position, row, day), LinkedReversalOf(tx, row, day);
    BothPostAlike(rolled, rolled, rates, p, q);
    main, linked := BothLogs(rolled, rates, p, q);
  }

  /** A reversal that could not read the position leaves the holding and posts nothing for the trade itself. */
  lemma {:induction false} UnreadPositionStays(db: Tables, rates: Rates, day: int, user: int, row: int,
                                               u: UnnoticedBack)
    requires u.position && u.children && ReversedBut(db, rates, day, user, row, u).Some?
    requires FindRow(db.rows, row, user).Some?
    requires var tx := FindRow(db.rows, row, user).value.tx;
             IsTrade(tx.code) && tx.asset in db.assets && tx.linked != tx.asset
    ensures var tx, db1 := FindRow(db.rows, row, user).value.tx, ReversedBut(db, rates, day, user, row, u).value;
            tx.asset in db1.assets && db1.assets[tx.asset] == db.assets[tx.asset]
  {
  }
}
