/** Runs of transactions and of reversals on the tables, and what they leave of one asset's position. */
module TradeRuns {
  import opened Prelude
  import opened Decimals
  import opened TxTypes
  import opened Books
  import opened LedgerLaws
  import opened TradeLaws
  import P = Position

  // ---------------------------------------------------------------------------------------
  // Rows

  lemma {:induction false} FindIsThere(rows: seq<Row>, id: int, user: int)
    requires FindRow(rows, id, user).Some?
    ensures var r := FindRow(rows, id, user).value; r in rows && r.id == id && r.tx.user == user
  {
    if rows[0].id != id || rows[0].tx.user != user {
      FindIsThere(rows[1..], id, user);
    }
  }

  lemma {:induction false} FindInSum(rows: seq<Row>, more: seq<Row>, id: int, user: int)
    requires FindRow(rows, id, user).Some?
    ensures FindRow(rows + more, id, user) == FindRow(rows, id, user)
  {
    assert (rows + more)[0] == rows[0] && (rows + more)[1..] == rows[1..] + more;
    if rows[0].id != id || rows[0].tx.user != user {
      FindInSum(rows[1..], more, id, user);
    }
  }

  lemma {:induction false} FindNew(rows: seq<Row>, row: Row)
    requires RowsBelow(rows, row.id)
    ensures FindRow(rows + [row], row.id, row.tx.user) == Some(row)
  {
    if rows == [] {
      assert rows + [row] == [row];
    } else {
      assert (rows + [row])[0] == rows[0] && (rows + [row])[1..] == rows[1..] + [row];
      FindNew(rows[1..], row);
    }
  }

  /** Overwriting a row leaves the others as they are. */
  lemma {:induction false} FindInUpdated(rows: seq<Row>, id: int, tx: Tx, other: int, user: int)
    ensures other != id ==> FindRow(Updated(rows, id, tx), other, user) == FindRow(rows, other, user)
    ensures FindRow(rows, id, tx.user).Some? ==>
              FindRow(Updated(rows, id, tx), id, tx.user).Some?
              && FindRow(Updated(rows, id, tx), id, tx.user).value.tx == tx
  {
    if rows != [] {
      FindInUpdated(rows[1..], id, tx, other, user);
      assert Updated(rows, id, tx)[1..] == Updated(rows[1..], id, tx);
    }
  }

  lemma {:induction false} UpdatedBelow(rows: seq<Row>, id: int, tx: Tx, n: int)
    requires RowsBelow(rows, n)
    ensures RowsBelow(Updated(rows, id, tx), n)
  {
    if rows != [] {
      UpdatedBelow(rows[1..], id, tx, n);
    }
  }

  /** Only fee rows are dropped. */
  lemma {:induction false} FindInRest(rows: seq<Row>, user: int, parent: int, id: int, owner: int)
    requires FindRow(rows, id, owner).Some? && FindRow(rows, id, owner).value.tx.code != Fee
    ensures FindRow(WithoutChildren(rows, user, parent), id, owner) == FindRow(rows, id, owner)
  {
    var rest := WithoutChildren(rows[1..], user, parent);
    if rows[0].id == id && rows[0].tx.user == owner {
      assert WithoutChildren(rows, user, parent)[0] == rows[0];
    } else {
      FindInRest(rows[1..], user, parent, id, owner);
      assert [] + rest == rest && ([rows[0]] + rest)[1..] == rest;
    }
  }

  lemma {:induction false} RestBelow(rows: seq<Row>, user: int, parent: int, n: int)
    requires RowsBelow(rows, n)
    ensures RowsBelow(WithoutChildren(rows, user, parent), n)
  {
    if rows != [] {
      RestBelow(rows[1..], user, parent, n);
    }
  }

  // ---------------------------------------------------------------------------------------
  // What a call does to the rows

  lemma {:induction false} StoredRows(db: Tables, id: int, tx: Tx, other: int, user: int)
    requires FreshRows(db) && RowStored(db, id, tx).Some?
    ensures var (db1, row) := RowStored(db, id, tx).value;
            && FreshRows(db1) && row < db1.nextRow && (id > 0 ==> row == id) && (id <= 0 ==> row == db.nextRow)
            && FindRow(db1.rows, row, tx.user).Some? && FindRow(db1.rows, row, tx.user).value.tx == tx
            && (FindRow(db.rows, other, user).Some? && (id > 0 ==> other != id) ==>
                  FindRow(db1.rows, other, user) == FindRow(db.rows, other, user))
  {
    if id <= 0 {
      FindNew(db.rows, Row(db.nextRow, tx, 0));
      if FindRow(db.rows, other, user).Some? {
        FindInSum(db.rows, [Row(db.nextRow, tx, 0)], other, user);
      }
    } else {
      FindInUpdated(db.rows, id, tx, other, user);
      UpdatedBelow(db.rows, id, tx, db.nextRow);
      FindIsThere(db.rows, id, tx.user);
    }
  }

  lemma {:induction false} AppliedRowsStay(db: Tables, rates: Rates, day: int, id: int, tx: Tx, other: int, user: int)
    requires FreshRows(db) && Applied(db, rates, day, id, tx).Some?
    ensures var (db1, row) := Applied(db, rates, day, id, tx).value;
            && FreshRows(db1) && row > 0 && (id > 0 ==> row == id) && (id <= 0 ==> row == db.nextRow)
            && FindRow(db1.rows, row, tx.user).Some? && FindRow(db1.rows, row, tx.user).value.tx == tx
            && (FindRow(db.rows, other, user).Some? && (id > 0 ==> other != id) ==>
                  FindRow(db1.rows, other, user) == FindRow(db.rows, other, user))
  {
    AppliedInStages(db, rates, day, id, tx);
    StoredRows(db, id, tx, other, user);
    var (stored, row) := RowStored(db, id, tx).value;
    var (moved, position) := PositionApplied(stored, rates, tx).value;
    SettledRows(moved, rates, day, tx, OwnCurrency(db, tx.asset), position, row);
    var more := if ChargesFee(tx) then [Row(moved.nextRow, FeeRow(tx), row)] else [];
    FindInSum(stored.rows, more, row, tx.user);
    if FindRow(stored.rows, other, user).Some? {
      FindInSum(stored.rows, more, other, user);
    }
  }

  lemma {:induction false} ReversedRowsStay(db: Tables, rates: Rates, day: int, user: int, row: int, other: int,
                                            owner: int)
    requires FreshRows(db) && Reversed(db, rates, day, user, row).Some?
    ensures var db1 := Reversed(db, rates, day, user, row).value;
            && FreshRows(db1)
            && (FindRow(db.rows, other, owner).Some? && FindRow(db.rows, other, owner).value.tx.code != Fee ==>
                  FindRow(db1.rows, other, owner) == FindRow(db.rows, other, owner))
  {
    ReversedInStages(db, rates, day, user, row);
    BothKeepRows(db, rates, day, user, row);
    RestBelow(db.rows, user, row, db.nextRow);
    if FindRow(db.rows, other, owner).Some? && FindRow(db.rows, other, owner).value.tx.code != Fee {
      FindInRest(db.rows, user, row, other, owner);
    }
  }

  lemma {:induction false} BothKeepRows(db: Tables, rates: Rates, day: int, user: int, row: int)
    requires Reversed(db, rates, day, user, row).Some?
    ensures var db1 := Reversed(db, rates, day, user, row).value;
            db1.rows == WithoutChildren(db.rows, user, row) && db1.nextRow == db.nextRow
  {
    ReversedInStages(db, rates, day, user, row);
  }

  // ---------------------------------------------------------------------------------------
  // Runs

  /** One call; each has the rates of its own day. `row` <= 0 stores a new row. */
  datatype Action =
    | Apply(rates: Rates, day: int, row: int, tx: Tx)
    | Reverse(rates: Rates, day: int, user: int, row: int)

  /** A buy of the asset that has not been taken back, with its row. */
  datatype Live = Live(row: int, tx: Tx)

  /** The tables, the live buys, and the account kept of them. */
  datatype State = State(db: Tables, live: seq<Live>, account: P.Account)

  function Started(db: Tables, id: int): State
    requires id in db.assets
  {
    State(db, [], P.Opened(db.assets[id].holding))
  }

  function IndexOf(live: seq<Live>, row: int): (k: nat)
    ensures k <= |live| && (k < |live| ==> live[k].row == row)
    ensures k == |live| ==> forall i :: 0 <= i < |live| ==> live[i].row != row
  {
    if live == [] then 0 else if live[0].row == row then 0 else 1 + IndexOf(live[1..], row)
  }

  /** What a buy enters into the account. */
  function PurchaseOf(a: Asset, tx: Tx, rates: Rates): P.Purchase
    requires tx.quantity >= 0
  {
    P.Purchase(Paid(tx, a.currency, rates), ConvertPrice(tx.price, tx.currency, a.currency, rates), tx.quantity)
  }

  function RowTx(db: Tables, row: int, user: int): Option<Tx> {
    match FindRow(db.rows, row, user)
    case Some(r) => Some(r.tx)
    case None => None
  }

  predicate IsLive(s: State, row: int) { exists k :: 0 <= k < |s.live| && s.live[k].row == row }

  /**
    * What the callers keep to: the asset is only bought, a row is not used again before its buy was taken
    * back, and no buy is taken back twice. Everything else is free.
    */
  predicate Allowed(s: State, id: int, a: Action) {
    match a
    case Apply(_, _, row, tx) => (Trades(s.db, tx, id) ==> tx.code == Buy && tx.quantity >= 0) && !IsLive(s, row)
    case Reverse(_, _, user, row) =>
      var tx := RowTx(s.db, row, user);
      tx.Some? && Trades(s.db, tx.value, id) ==> IsLive(s, row)
  }

  /** A call that fails changes nothing. */
  function After(s: State, id: int, a: Action): State
    requires Allowed(s, id, a) && id in s.db.assets
  {
    match a
    case Apply(rates, day, row, tx) =>
      (match Applied(s.db, rates, day, row, tx)
       case None => s
       case Some((db1, stored)) =>
         if Trades(s.db, tx, id) then
           State(db1, s.live + [Live(stored, tx)],
                 P.Traded(s.account, P.Trade.Buy(PurchaseOf(s.db.assets[id], tx, rates))))
         else s.(db := db1))
    case Reverse(rates, day, user, row) =>
      match Reversed(s.db, rates, day, user, row)
      case None => s
      case Some(db1) =>
        var tx, k := RowTx(s.db, row, user), IndexOf(s.live, row);
        if tx.Some? && Trades(s.db, tx.value, id) && k < |s.live| then
          State(db1, s.live[..k] + s.live[k + 1..],
                P.Traded(s.account, P.Undo(k, Paid(tx.value, s.db.assets[id].currency, rates))))
        else s.(db := db1)
  }

  ghost predicate LiveAt(s: State, id: int, k: nat)
    requires id in s.db.assets && k < |s.live| == |s.account.live|
  {
    var l := s.live[k];
    && l.tx.code == Buy && l.tx.asset == id && l.tx.user == s.db.assets[id].user
    && RowTx(s.db, l.row, l.tx.user) == Some(l.tx) && s.account.live[k].quantity == l.tx.quantity
  }

  /** The account is that of the asset's holding, and the live buys are in the rows. */
  ghost predicate Good(s: State, id: int) {
    && id > 0 && id in s.db.assets && IsInvestment(s.db.assets[id].kind) && FreshRows(s.db)
    && s.account.holding == s.db.assets[id].holding && |s.live| == |s.account.live|
    && forall k :: 0 <= k < |s.live| ==> LiveAt(s, id, k)
  }

  lemma {:induction false} StartsGood(db: Tables, id: int)
    requires id > 0 && id in db.assets && IsInvestment(db.assets[id].kind) && FreshRows(db)
    ensures Good(Started(db, id), id)
  {
  }

  lemma {:induction false} LiveStays(s: State, db1: Tables, id: int, row: int)
    requires Good(s, id) && id in db1.assets && db1.assets[id].user == s.db.assets[id].user
    requires forall k :: 0 <= k < |s.live| ==> RowTx(db1, s.live[k].row, s.live[k].tx.user) == Some(s.live[k].tx)
    ensures forall k :: 0 <= k < |s.live| ==> LiveAt(s.(db := db1), id, k)
  {
    forall k | 0 <= k < |s.live|
      ensures LiveAt(s.(db := db1), id, k)
    {
      assert LiveAt(s, id, k);
    }
  }

  // ---------------------------------------------------------------------------------------
  // One step

  lemma {:induction false} BuyKeepsGood(s: State, id: int, rates: Rates, day: int, row: int, tx: Tx)
    requires Good(s, id) && Allowed(s, id, Apply(rates, day, row, tx)) && Trades(s.db, tx, id)
    requires Applied(s.db, rates, day, row, tx).Some?
    ensures Good(After(s, id, Apply(rates, day, row, tx)), id)
  {
    var (db1, stored) := Applied(s.db, rates, day, row, tx).value;
    TradeIsMarked(s.db, rates, day, row, tx, id);
    AppliedRowsStay(s.db, rates, day, row, tx, 0, 0);
    AppliedKeepsLive(s, id, rates, day, row, tx);
    var s1 := After(s, id, Apply(rates, day, row, tx));
    forall k | 0 <= k < |s1.live|
      ensures LiveAt(s1, id, k)
    {
      if k < |s.live| {
        assert LiveAt(s.(db := db1), id, k);
        assert s1.live[k] == s.live[k] && s1.account.live[k] == s.account.live[k];
      }
    }
  }

  lemma {:induction false} AppliedKeepsLive(s: State, id: int, rates: Rates, day: int, row: int, tx: Tx)
    requires Good(s, id) && !IsLive(s, row) && Applied(s.db, rates, day, row, tx).Some?
    ensures var db1 := Applied(s.db, rates, day, row, tx).value.0;
            && FreshRows(db1) && id in db1.assets && db1.assets[id].user == s.db.assets[id].user
            && db1.assets[id].kind == s.db.assets[id].kind && db1.assets[id].currency == s.db.assets[id].currency
            && forall k :: 0 <= k < |s.live| ==> LiveAt(s.(db := db1), id, k)
  {
    var db1 := Applied(s.db, rates, day, row, tx).value.0;
    if Trades(s.db, tx, id) {
      TradeIsMarked(s.db, rates, day, row, tx, id);
    } else {
      AppliedLeaves(s.db, rates, day, row, tx, id);
    }
    AppliedRowsStay(s.db, rates, day, row, tx, 0, 0);
    forall k | 0 <= k < |s.live|
      ensures RowTx(db1, s.live[k].row, s.live[k].tx.user) == Some(s.live[k].tx)
    {
      assert LiveAt(s, id, k);
      AppliedRowsStay(s.db, rates, day, row, tx, s.live[k].row, s.live[k].tx.user);
    }
    LiveStays(s, db1, id, row);
  }

  lemma {:induction false} OtherKeepsGood(s: State, id: int, rates: Rates, day: int, row: int, tx: Tx)
    requires Good(s, id) && Allowed(s, id, Apply(rates, day, row, tx)) && !Trades(s.db, tx, id)
    requires Applied(s.db, rates, day, row, tx).Some?
    ensures Good(After(s, id, Apply(rates, day, row, tx)), id)
  {
    AppliedLeaves(s.db, rates, day, row, tx, id);
    AppliedKeepsLive(s, id, rates, day, row, tx);
  }

  lemma {:induction false} ReversedKeepsLive(s: State, id: int, rates: Rates, day: int, user: int, row: int)
    requires Good(s, id) && Reversed(s.db, rates, day, user, row).Some?
    ensures var db1 := Reversed(s.db, rates, day, user, row).value;
            && FreshRows(db1) && id in db1.assets && db1.assets[id].user == s.db.assets[id].user
            && db1.assets[id].kind == s.db.assets[id].kind && db1.assets[id].currency == s.db.assets[id].currency
            && forall k :: 0 <= k < |s.live| ==> LiveAt(s.(db := db1), id, k)
  {
    var db1 := Reversed(s.db, rates, day, user, row).value;
    ReversedInStages(s.db, rates, day, user, row);
    if Trades(s.db, FindRow(s.db.rows, row, user).value.tx, id) {
      ReverseTradeIsMarked(s.db, rates, day, user, row, id);
    } else {
      ReversedLeaves(s.db, rates, day, user, row, id);
    }
    ReversedRowsStay(s.db, rates, day, user, row, 0, 0);
    forall k | 0 <= k < |s.live|
      ensures RowTx(db1, s.live[k].row, s.live[k].tx.user) == Some(s.live[k].tx)
    {
      assert LiveAt(s, id, k);
      ReversedRowsStay(s.db, rates, day, user, row, s.live[k].row, s.live[k].tx.user);
    }
    LiveStays(s, db1, id, row);
  }

  /** The reversal of a buy of the asset finds that buy among the live ones. */
  lemma {:induction false} FindsLive(s: State, id: int, rates: Rates, day: int, user: int, row: int) returns (k: nat)
    requires Good(s, id) && Allowed(s, id, Reverse(rates, day, user, row))
    requires FindRow(s.db.rows, row, user).Some? && Trades(s.db, FindRow(s.db.rows, row, user).value.tx, id)
    ensures k == IndexOf(s.live, row) && k < |s.live|
    ensures s.live[k].tx == FindRow(s.db.rows, row, user).value.tx
  {
    k := IndexOf(s.live, row);
    FindIsThere(s.db.rows, row, user);
    assert LiveAt(s, id, k);
  }

  lemma {:induction false} OthersStayLive(s: State, id: int, k: nat, s1: State)
    requires id in s.db.assets && k < |s.live| == |s.account.live| && s1.db == s.db
    requires s1.live == s.live[..k] + s.live[k + 1..]
    requires s1.account.live == s.account.live[..k] + s.account.live[k + 1..]
    requires forall i :: 0 <= i < |s.live| ==> LiveAt(s, id, i)
    ensures |s1.live| == |s1.account.live| && forall j :: 0 <= j < |s1.live| ==> LiveAt(s1, id, j)
  {
    forall j | 0 <= j < |s1.live|
      ensures LiveAt(s1, id, j)
    {
      var i := if j < k then j else j + 1;
      assert LiveAt(s, id, i);
      assert s1.live[j] == s.live[i] && s1.account.live[j] == s.account.live[i];
    }
  }

  lemma {:induction false} UndoKeepsGood(s: State, id: int, rates: Rates, day: int, user: int, row: int)
    requires Good(s, id) && Allowed(s, id, Reverse(rates, day, user, row))
    requires Reversed(s.db, rates, day, user, row).Some?
    requires FindRow(s.db.rows, row, user).Some? && Trades(s.db, FindRow(s.db.rows, row, user).value.tx, id)
    ensures Good(After(s, id, Reverse(rates, day, user, row)), id)
  {
    var db1 := Reversed(s.db, rates, day, user, row).value;
    var k := FindsLive(s, id, rates, day, user, row);
    ReversedKeepsLive(s, id, rates, day, user, row);
    ReverseTradeIsMarked(s.db, rates, day, user, row, id);
    assert LiveAt(s, id, k);
    OthersStayLive(s.(db := db1), id, k, After(s, id, Reverse(rates, day, user, row)));
  }

  lemma {:induction false} OtherUndoKeepsGood(s: State, id: int, rates: Rates, day: int, user: int, row: int)
    requires Good(s, id) && Allowed(s, id, Reverse(rates, day, user, row))
    requires Reversed(s.db, rates, day, user, row).Some?
    requires FindRow(s.db.rows, row, user).Some? && !Trades(s.db, FindRow(s.db.rows, row, user).value.tx, id)
    ensures Good(After(s, id, Reverse(rates, day, user, row)), id)
  {
    ReversedKeepsLive(s, id, rates, day, user, row);
    ReversedLeaves(s.db, rates, day, user, row, id);
  }

  lemma {:induction false} StepKeepsGood(s: State, id: int, a: Action)
    requires Good(s, id) && Allowed(s, id, a)
    ensures Good(After(s, id, a), id)
  {
    match a
    case Apply(rates, day, row, tx) =>
      if Applied(s.db, rates, day, row, tx).Some? {
        if Trades(s.db, tx, id) {
          BuyKeepsGood(s, id, rates, day, row, tx);
        } else {
          OtherKeepsGood(s, id, rates, day, row, tx);
        }
      }
    case Reverse(rates, day, user, row) =>
      if Reversed(s.db, rates, day, user, row).Some? {
        ReversedInStages(s.db, rates, day, user, row);
        if Trades(s.db, FindRow(s.db.rows, row, user).value.tx, id) {
          UndoKeepsGood(s, id, rates, day, user, row);
        } else {
          OtherUndoKeepsGood(s, id, rates, day, user, row);
        }
      }
  }

  lemma {:induction false} StepKeepsBalance(s: State, id: int, a: Action, base: P.Holding)
    requires id in s.db.assets && Allowed(s, id, a) && base.quantity >= 0 && P.Balanced(base, s.account)
    ensures P.Balanced(base, After(s, id, a).account)
  {
    match a
    case Apply(rates, day, row, tx) =>
      if Applied(s.db, rates, day, row, tx).Some? && Trades(s.db, tx, id) {
        P.TradeKeepsBalance(base, s.account, P.Trade.Buy(PurchaseOf(s.db.assets[id], tx, rates)));
      }
    case Reverse(rates, day, user, row) =>
      var tx, k := RowTx(s.db, row, user), IndexOf(s.live, row);
      if tx.Some? && k < |s.live| {
        P.TradeKeepsBalance(base, s.account, P.Undo(k, Paid(tx.value, s.db.assets[id].currency, rates)));
      }
  }

  // ---------------------------------------------------------------------------------------
  // The whole run

  ghost predicate AllAllowed(s: State, id: int, actions: seq<Action>)
    decreases |actions|
  {
    actions == []
    || (id in s.db.assets && Allowed(s, id, actions[0]) && AllAllowed(After(s, id, actions[0]), id, actions[1..]))
  }

  ghost function AfterAll(s: State, id: int, actions: seq<Action>): State
    requires AllAllowed(s, id, actions)
    decreases |actions|
  {
    if actions == [] then s else AfterAll(After(s, id, actions[0]), id, actions[1..])
  }

  lemma {:induction false} RunKeeps(s: State, id: int, actions: seq<Action>, base: P.Holding)
    requires Good(s, id) && AllAllowed(s, id, actions) && base.quantity >= 0 && P.Balanced(base, s.account)
    ensures var end := AfterAll(s, id, actions); Good(end, id) && P.Balanced(base, end.account)
    decreases |actions|
  {
    if actions != [] {
      StepKeepsGood(s, id, actions[0]);
      StepKeepsBalance(s, id, actions[0], base);
      RunKeeps(After(s, id, actions[0]), id, actions[1..], base);
    }
  }

  /** The asset's position is that of `base` and the live buys; `moved` and `cut` are what rates did to its cost. */
  ghost predicate AddsUp(s: State, id: int, base: P.Holding) {
    && id in s.db.assets && |s.live| == |s.account.live|
    && s.db.assets[id].holding.quantity == base.quantity + P.Quantities(s.account.live)
    && s.db.assets[id].holding.cost == base.cost + P.Payments(s.account.live) + s.account.moved + s.account.cut
    && forall k :: 0 <= k < |s.live| ==> LiveAt(s, id, k)
  }

  lemma {:induction false} GoodAddsUp(s: State, id: int, base: P.Holding)
    requires Good(s, id) && P.Balanced(base, s.account)
    ensures AddsUp(s, id, base)
  {
  }

  /**
    * Over any run of transactions and reversals, each at its own rates, in which the asset is only bought:
    * its quantity is that at the start plus that of the buys not taken back, and its cost is that at the
    * start plus what these buys paid, plus what reversals took off less, or more, than was paid, plus what
    * they could not take off.
    */
  lemma {:induction false} BuysAddUp(db: Tables, id: int, actions: seq<Action>)
    requires id > 0 && id in db.assets && IsInvestment(db.assets[id].kind) && FreshRows(db)
    requires db.assets[id].holding.quantity >= 0 && AllAllowed(Started(db, id), id, actions)
    ensures AddsUp(AfterAll(Started(db, id), id, actions), id, db.assets[id].holding)
  {
    StartsGood(db, id);
    RunKeeps(Started(db, id), id, actions, db.assets[id].holding);
    GoodAddsUp(AfterAll(Started(db, id), id, actions), id, db.assets[id].holding);
  }

  // ---------------------------------------------------------------------------------------
  // In the asset's own currency

  /** Buys of the asset are paid for in the currency `c`, and nothing is paid to the buyer. */
  predicate BuysIn(a: Action, id: int, c: Currency) {
    a.Apply? && a.tx.asset == id ==> Canonical(a.tx.currency) == Canonical(c) && a.tx.amount + a.tx.fee >= 0
  }

  ghost predicate PaidIn(s: State, c: Currency) {
    |s.live| == |s.account.live|
    && forall k :: 0 <= k < |s.live| ==>
         Canonical(s.live[k].tx.currency) == Canonical(c)
         && s.account.live[k].paid == s.live[k].tx.amount + s.live[k].tx.fee
  }

  lemma {:induction false} PaidInOwn(tx: Tx, c: Currency, rates: Rates)
    requires Canonical(tx.currency) == Canonical(c)
    ensures Paid(tx, c, rates) == tx.amount + tx.fee
  {
  }

  ghost predicate Exact(s: State, id: int, base: P.Holding) {
    Good(s, id) && P.IsExact(base, s.account) && PaidIn(s, s.db.assets[id].currency)
  }

  lemma {:induction false} CurrencyStays(s: State, id: int, a: Action)
    requires Good(s, id) && Allowed(s, id, a)
    ensures id in After(s, id, a).db.assets
    ensures After(s, id, a).db.assets[id].currency == s.db.assets[id].currency
  {
    match a
    case Apply(rates, day, row, tx) =>
      if Applied(s.db, rates, day, row, tx).Some? {
        AppliedKeepsLive(s, id, rates, day, row, tx);
      }
    case Reverse(rates, day, user, row) =>
      if Reversed(s.db, rates, day, user, row).Some? {
        ReversedKeepsLive(s, id, rates, day, user, row);
      }
  }

  lemma {:induction false} BuyIsExact(s: State, id: int, base: P.Holding, rates: Rates, day: int, row: int, tx: Tx)
    requires Exact(s, id, base) && base.quantity >= 0 && base.cost >= 0
    requires Allowed(s, id, Apply(rates, day, row, tx))
    requires BuysIn(Apply(rates, day, row, tx), id, s.db.assets[id].currency)
    ensures var s1 := After(s, id, Apply(rates, day, row, tx));
            P.IsExact(base, s1.account) && PaidIn(s1, s.db.assets[id].currency)
  {
    var c := s.db.assets[id].currency;
    if Applied(s.db, rates, day, row, tx).Some? && Trades(s.db, tx, id) {
      PaidInOwn(tx, c, rates);
      P.AtCostIsExact(base, s.account, P.Trade.Buy(PurchaseOf(s.db.assets[id], tx, rates)));
    }
  }

  lemma {:induction false} WithoutIsPaidIn(s: State, k: nat, s1: State, c: Currency)
    requires PaidIn(s, c) && k < |s.live| && s1.live == s.live[..k] + s.live[k + 1..]
    requires s1.account.live == s.account.live[..k] + s.account.live[k + 1..]
    ensures PaidIn(s1, c)
  {
  }

  lemma {:induction false} TakesWhatWasPaid(s: State, k: nat, c: Currency, rates: Rates)
    requires PaidIn(s, c) && k < |s.live|
    ensures P.AtCost(s.account, P.Undo(k, Paid(s.live[k].tx, c, rates)))
  {
    PaidInOwn(s.live[k].tx, c, rates);
  }

  lemma {:induction false} UndoIsExact(s: State, id: int, base: P.Holding, rates: Rates, day: int, user: int, row: int)
    requires Exact(s, id, base) && base.quantity >= 0 && base.cost >= 0
    requires Allowed(s, id, Reverse(rates, day, user, row)) && Reversed(s.db, rates, day, user, row).Some?
    requires FindRow(s.db.rows, row, user).Some? && Trades(s.db, FindRow(s.db.rows, row, user).value.tx, id)
    ensures var s1 := After(s, id, Reverse(rates, day, user, row));
            P.IsExact(base, s1.account) && PaidIn(s1, s.db.assets[id].currency)
  {
    var c := s.db.assets[id].currency;
    var k := FindsLive(s, id, rates, day, user, row);
    TakesWhatWasPaid(s, k, c, rates);
    P.AtCostIsExact(base, s.account, P.Undo(k, Paid(s.live[k].tx, c, rates)));
    WithoutIsPaidIn(s, k, After(s, id, Reverse(rates, day, user, row)), c);
  }

  lemma {:induction false} ReverseIsExact(s: State, id: int, base: P.Holding, rates: Rates, day: int, user: int,
                                          row: int)
    requires Exact(s, id, base) && base.quantity >= 0 && base.cost >= 0
    requires Allowed(s, id, Reverse(rates, day, user, row))
    ensures var s1 := After(s, id, Reverse(rates, day, user, row));
            P.IsExact(base, s1.account) && PaidIn(s1, s.db.assets[id].currency)
  {
    var found := FindRow(s.db.rows, row, user);
    if Reversed(s.db, rates, day, user, row).Some? && found.Some? && Trades(s.db, found.value.tx, id) {
      UndoIsExact(s, id, base, rates, day, user, row);
    }
  }

  lemma {:induction false} StepIsExact(s: State, id: int, a: Action, base: P.Holding)
    requires Exact(s, id, base) && base.quantity >= 0 && base.cost >= 0
    requires Allowed(s, id, a) && BuysIn(a, id, s.db.assets[id].currency)
    ensures Exact(After(s, id, a), id, base)
  {
    StepKeepsGood(s, id, a);
    CurrencyStays(s, id, a);
    match a
    case Apply(rates, day, row, tx) => BuyIsExact(s, id, base, rates, day, row, tx);
    case Reverse(rates, day, user, row) => ReverseIsExact(s, id, base, rates, day, user, row);
  }

  lemma {:induction false} RunIsExact(s: State, id: int, actions: seq<Action>, base: P.Holding)
    requires Exact(s, id, base) && base.quantity >= 0 && base.cost >= 0 && AllAllowed(s, id, actions)
    requires forall i :: 0 <= i < |actions| ==> BuysIn(actions[i], id, s.db.assets[id].currency)
    ensures Exact(AfterAll(s, id, actions), id, base)
    decreases |actions|
  {
    if actions != [] {
      assert BuysIn(actions[0], id, s.db.assets[id].currency);
      StepIsExact(s, id, actions[0], base);
      CurrencyStays(s, id, actions[0]);
      RunIsExact(After(s, id, actions[0]), id, actions[1..], base);
    }
  }

  /**
    * When the asset is bought in its own currency, rates do nothing to it: its cost is that at the start
    * plus amount and fee of the buys not taken back.
    */
  lemma {:induction false} OwnCurrencyAddsUp(db: Tables, id: int, actions: seq<Action>)
    requires id > 0 && id in db.assets && IsInvestment(db.assets[id].kind) && FreshRows(db)
    requires db.assets[id].holding.quantity >= 0 && db.assets[id].holding.cost >= 0
    requires AllAllowed(Started(db, id), id, actions)
    requires forall i :: 0 <= i < |actions| ==> BuysIn(actions[i], id, db.assets[id].currency)
    ensures var end := AfterAll(Started(db, id), id, actions);
            && AddsUp(end, id, db.assets[id].holding) && end.account.moved == 0 && end.account.cut == 0
            && PaidIn(end, db.assets[id].currency)
  {
    StartsGood(db, id);
    BuysAddUp(db, id, actions);
    RunIsExact(Started(db, id), id, actions, db.assets[id].holding);
    RunKeepsCurrency(Started(db, id), id, actions);
  }

  lemma {:induction false} RunKeepsCurrency(s: State, id: int, actions: seq<Action>)
    requires Good(s, id) && AllAllowed(s, id, actions)
    ensures id in AfterAll(s, id, actions).db.assets
    ensures AfterAll(s, id, actions).db.assets[id].currency == s.db.assets[id].currency
    decreases |actions|
  {
    if actions != [] {
      StepKeepsGood(s, id, actions[0]);
      CurrencyStays(s, id, actions[0]);
      RunKeepsCurrency(After(s, id, actions[0]), id, actions[1..]);
    }
  }

  // ---------------------------------------------------------------------------------------
  // The balance

  /** The transaction that a call applies or takes back, if it succeeds. */
  function Subject(s: State, a: Action): Option<Tx> {
    match a
    case Apply(rates, day, row, tx) => if Applied(s.db, rates, day, row, tx).Some? then Some(tx) else None
    case Reverse(rates, day, user, row) =>
      if Reversed(s.db, rates, day, user, row).Some? then RowTx(s.db, row, user) else None
  }

  /**
    * In every state of a run: a buy, or taking one back, that is paid for by another account leaves the
    * asset's balance at the market value of what it then holds.
    */
  lemma {:induction false} StepMarks(s: State, id: int, a: Action)
    requires Good(s, id) && Allowed(s, id, a)
    requires Subject(s, a).Some? && Trades(s.db, Subject(s, a).value, id)
    requires Subject(s, a).value.linked > 0 && Subject(s, a).value.linked != id
    ensures id in After(s, id, a).db.assets
    ensures var b := After(s, id, a).db.assets[id];
            b.value == P.MarketValue(b.holding.net, b.holding.quantity, Precision(b.currency))
  {
    match a
    case Apply(rates, day, row, tx) => TradeIsMarked(s.db, rates, day, row, tx, id);
    case Reverse(rates, day, user, row) => ReverseTradeIsMarked(s.db, rates, day, user, row, id);
  }
}
