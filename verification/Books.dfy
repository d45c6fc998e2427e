/**
  * The tables behind balances: assets, the audit log of balance changes and transaction rows, with the
  * operations that post to them. Each operation is first a function on the tables, then the method that
  * performs it one database call at a time, where any call may fail.
  */
module Books {
  import opened Prelude
  import opened Decimals
  import opened TxTypes
  import P = Position

  datatype AssetType = CreditCard | Loan | OtherLiability | Stock | Fund | Bond | Crypto | OtherAsset(text: string)

  /** `value` is in minor units of `currency`; `created` is a day number. */
  datatype Asset = Asset(user: int, kind: AssetType, currency: Currency, created: int, value: int, holding: P.Holding)

  datatype Source =
    | TransactionFee | Transaction | TransactionLinked
    | FeeReversal | TransactionReversal | LinkedReversal
    | OtherSource(text: string)

  datatype Log = Log(asset: int, user: int, delta: int, after: int, source: Source, sourceId: int, day: int)

  /** A transaction as its callers build it; `linked` <= 0 means no funding account. */
  datatype Tx = Tx(user: int, asset: int, linked: int, code: Code, currency: Currency,
                   amount: int, fee: int, price: int, quantity: int)

  /** `parent` is 0 except in the fee rows that belong to another transaction. */
  datatype Row = Row(id: int, tx: Tx, parent: int)

  datatype Tables = Tables(assets: map<int, Asset>, logs: seq<Log>, rows: seq<Row>, nextRow: int)

  predicate IsLiability(kind: AssetType) { kind == CreditCard || kind == Loan || kind == OtherLiability }

  function BalanceDirection(kind: AssetType): int { if IsLiability(kind) then -1 else 1 }

  /** An amount in favour of the owner, as a change of the asset's balance, or the other way round. */
  function Turn(kind: AssetType, amount: int): int { if BalanceDirection(kind) < 0 then -amount else amount }

  predicate IsInvestment(kind: AssetType) { kind == Stock || kind == Fund || kind == Bond || kind == Crypto }

  predicate IsTrade(code: Code) { code == Buy || code == Sell }

  predicate Owns(db: Tables, id: int, user: int) { id in db.assets && db.assets[id].user == user }

  // ---------------------------------------------------------------------------------------
  // Posting a delta

  /** The delta in the asset's own currency, turned round for liabilities. */
  function Signed(a: Asset, delta: Money, rates: Rates): int {
    Turn(a.kind, Convert(delta, a.currency, rates).units)
  }

  /** What a posting is: its time and place, its amount, and what it is for. */
  datatype Posting = Posting(asset: int, user: int, delta: Money, source: Source, sourceId: int, day: int)

  function Posted(db: Tables, rates: Rates, p: Posting): Tables
    requires p.asset in db.assets
  {
    var a := db.assets[p.asset];
    var delta := Signed(a, p.delta, rates);
    var after := a.value + delta;
    db.(assets := db.assets[p.asset := a.(value := after)],
        logs := db.logs + [Log(p.asset, p.user, delta, after, p.source, p.sourceId, p.day)])
  }

  predicate CanPost(db: Tables, p: Posting) {
    p.asset > 0 && p.user > 0 && Owns(db, p.asset, p.user)
  }

  /** The ledger posts only deltas that are not zero; None when a posting is refused. */
  function PostedUnlessZero(db: Tables, rates: Rates, p: Posting): Option<Tables> {
    if p.delta.units == 0 then Some(db)
    else if CanPost(db, p) then Some(Posted(db, rates, p))
    else None
  }

  // ---------------------------------------------------------------------------------------
  // Positions

  function ConvertPrice(price: int, from: Currency, to: Currency, rates: Rates): int {
    if Canonical(from) == Canonical(to) || price == 0 then price
    else
      var rounded := Round(Decimal(price, P.QUANTITY_SCALE), Precision(from)).m;
      Round(Amount(Convert(Money(rounded, from), to, rates)), P.QUANTITY_SCALE).m
  }

  function Repositioned(db: Tables, id: int, h: P.Holding): (Tables, int)
    requires id in db.assets
  {
    var a := db.assets[id];
    (db.(assets := db.assets[id := a.(holding := h)]),
     P.MarketValue(h.net, h.quantity, Precision(a.currency)) - a.value)
  }

  /** What a buy costs, in the asset's currency. */
  function Paid(tx: Tx, to: Currency, rates: Rates): int {
    Convert(Money(tx.amount, tx.currency), to, rates).units + Convert(Money(tx.fee, tx.currency), to, rates).units
  }

  /** The holding after a trade; None for a sell of more than there is. */
  function AfterTrade(a: Asset, tx: Tx, rates: Rates): Option<P.Holding>
    requires IsTrade(tx.code)
  {
    if tx.code == Buy then
      var price := ConvertPrice(tx.price, tx.currency, a.currency, rates);
      Some(P.Bought(a.holding, Paid(tx, a.currency, rates), price, tx.quantity))
    else P.Sold(a.holding, tx.quantity, Precision(a.currency))
  }

  /** The holding with a trade taken back. */
  function WithoutTrade(a: Asset, tx: Tx, rates: Rates): P.Holding
    requires IsTrade(tx.code)
  {
    if tx.code == Buy then P.Unbought(a.holding, Paid(tx, a.currency, rates), tx.quantity)
    else
      var price := ConvertPrice(tx.price, tx.currency, a.currency, rates);
      P.Unsold(a.holding, price, tx.quantity, Precision(a.currency))
  }

  predicate HasPosition(db: Tables, tx: Tx) {
    IsTrade(tx.code) && Owns(db, tx.asset, tx.user) && IsInvestment(db.assets[tx.asset].kind)
  }

  /** `apply_position_fc`: the tables with the new holding, and the delta its market value calls for. */
  function PositionApplied(db: Tables, rates: Rates, tx: Tx): Option<(Tables, int)> {
    if !HasPosition(db, tx) then Some((db, 0))
    else
      match AfterTrade(db.assets[tx.asset], tx, rates)
      case Some(h) => Some(Repositioned(db, tx.asset, h))
      case None => None
  }

  /** `rollback_position_fc` */
  function PositionRolledBack(db: Tables, rates: Rates, tx: Tx): (Tables, int) {
    if tx.asset <= 0 || !HasPosition(db, tx) then (db, 0)
    else Repositioned(db, tx.asset, WithoutTrade(db.assets[tx.asset], tx, rates))
  }

  // ---------------------------------------------------------------------------------------
  // Applying a transaction

  predicate LedgerKnows(code: Code) { !code.Other? && code != Loss }

  function FeeTarget(tx: Tx): int { if tx.linked > 0 then tx.linked else tx.asset }

  function FindRow(rows: seq<Row>, id: int, user: int): Option<Row> {
    if rows == [] then None
    else if rows[0].id == id && rows[0].tx.user == user then Some(rows[0])
    else FindRow(rows[1..], id, user)
  }

  function Updated(rows: seq<Row>, id: int, tx: Tx): seq<Row> {
    if rows == [] then []
    else
      [if rows[0].id == id && rows[0].tx.user == tx.user then rows[0].(tx := tx) else rows[0]]
      + Updated(rows[1..], id, tx)
  }

  function Inserted(db: Tables, tx: Tx, parent: int): Tables {
    db.(rows := db.rows + [Row(db.nextRow, tx, parent)], nextRow := db.nextRow + 1)
  }

  /** A new row for id <= 0, else the existing one overwritten. */
  function RowStored(db: Tables, id: int, tx: Tx): Option<(Tables, int)> {
    if id <= 0 then Some((Inserted(db, tx, 0), db.nextRow))
    else if FindRow(db.rows, id, tx.user).Some? then Some((db.(rows := Updated(db.rows, id, tx)), id))
    else None
  }

  predicate ChargesFee(tx: Tx) { tx.fee != 0 && tx.code != Fee }

  /** The row that records a transaction's fee, charged to the funding account if there is one. */
  function FeeRow(tx: Tx): Tx {
    tx.(linked := FeeTarget(tx), code := Fee, amount := tx.fee, fee := 0, price := 0, quantity := 0)
  }

  function FeePosting(tx: Tx, id: int, day: int): Posting {
    Posting(FeeTarget(tx), tx.user, Money(-tx.fee, tx.currency), TransactionFee, id, day)
  }

  function FeeCharged(db: Tables, rates: Rates, day: int, tx: Tx, id: int): Option<Tables> {
    if !ChargesFee(tx) then Some(db)
    else PostedUnlessZero(Inserted(db, FeeRow(tx), id), rates, FeePosting(tx, id, day))
  }

  /** The main asset of a trade follows its market value; a fee with a funding account leaves it alone. */
  function MainDelta(tx: Tx, own: Currency, position: int): Money {
    if IsTrade(tx.code) then Money(position, own)
    else if tx.code == Fee && tx.linked > 0 then Money(0, tx.currency)
    else Money(TxDelta(tx.code, tx.amount), tx.currency)
  }

  function LinkedMoney(tx: Tx): Money {
    if tx.linked <= 0 then Money(0, tx.currency)
    else if tx.code == Buy then Money(-tx.amount, tx.currency)
    else if tx.code == Sell then Money(tx.amount, tx.currency)
    else Money(LinkedDelta(tx.code, tx.amount, TxDelta(tx.code, tx.amount)), tx.currency)
  }

  function OwnCurrency(db: Tables, id: int): Currency { if id in db.assets then db.assets[id].currency else NoCurrency }

  function MainPosting(tx: Tx, own: Currency, position: int, id: int, day: int): Posting {
    Posting(tx.asset, tx.user, MainDelta(tx, own, position), Transaction, id, day)
  }

  function LinkedPosting(tx: Tx, id: int, day: int): Posting {
    Posting(tx.linked, tx.user, LinkedMoney(tx), TransactionLinked, id, day)
  }

  function BothPosted(db: Tables, rates: Rates, main: Posting, linked: Posting): Option<Tables> {
    match PostedUnlessZero(db, rates, main)
    case Some(db1) => PostedUnlessZero(db1, rates, linked)
    case None => None
  }

  /** The money side of a transaction: its fee, its main asset and its funding account, in this order. */
  function Settled(db: Tables, rates: Rates, day: int, tx: Tx, own: Currency, position: int, row: int): Option<Tables> {
    match FeeCharged(db, rates, day, tx, row)
    case Some(db1) => BothPosted(db1, rates, MainPosting(tx, own, position, row, day), LinkedPosting(tx, row, day))
    case None => None
  }

  /** `ledger_apply_tx`: the tables afterwards and the id of the transaction's row, or None when refused. */
  function Applied(db: Tables, rates: Rates, day: int, id: int, tx: Tx): Option<(Tables, int)> {
    if tx.user <= 0 || tx.asset <= 0 || !LedgerKnows(tx.code) || RowStored(db, id, tx).None? then None
    else
      var (db1, row) := RowStored(db, id, tx).value;
      var moved := PositionApplied(db1, rates, tx);
      if moved.None? then None
      else
        var (db2, position) := moved.value;
        var settled := Settled(db2, rates, day, tx, OwnCurrency(db, tx.asset), position, row);
        if settled.None? then None else Some((settled.value, row))
  }

  /** Failed calls that `ledger_apply_tx` takes no notice of: reading the position, storing the fee's row. */
  datatype Unnoticed = Unnoticed(position: bool, feeRow: bool)

  function FeeChargedBut(db: Tables, rates: Rates, day: int, tx: Tx, id: int, noRow: bool): Option<Tables> {
    if !ChargesFee(tx) then Some(db)
    else PostedUnlessZero(if noRow then db else Inserted(db, FeeRow(tx), id), rates, FeePosting(tx, id, day))
  }

  function SettledBut(db: Tables, rates: Rates, day: int, tx: Tx, own: Currency, position: int, row: int, noRow: bool)
    : Option<Tables>
  {
    match FeeChargedBut(db, rates, day, tx, row, noRow)
    case Some(db1) => BothPosted(db1, rates, MainPosting(tx, own, position, row, day), LinkedPosting(tx, row, day))
    case None => None
  }

  /** What a transaction then does: a trade moves the money and no position, or the fee is charged without a row. */
  function AppliedBut(db: Tables, rates: Rates, day: int, id: int, tx: Tx, u: Unnoticed): Option<(Tables, int)> {
    if tx.user <= 0 || tx.asset <= 0 || !LedgerKnows(tx.code) || RowStored(db, id, tx).None? then None
    else
      var (db1, row) := RowStored(db, id, tx).value;
      var moved := if u.position then Some((db1, 0)) else PositionApplied(db1, rates, tx);
      if moved.None? then None
      else
        var (db2, position) := moved.value;
        var settled := SettledBut(db2, rates, day, tx, OwnCurrency(db, tx.asset), position, row, u.feeRow);
        if settled.None? then None else Some((settled.value, row))
  }

  /** Without such failures it is the transaction itself. */
  lemma {:induction false} AllNoticed(db: Tables, rates: Rates, day: int, id: int, tx: Tx)
    ensures AppliedBut(db, rates, day, id, tx, Unnoticed(false, false)) == Applied(db, rates, day, id, tx)
  {
  }

  // ---------------------------------------------------------------------------------------
  // Taking a transaction back

  predicate IsFeeChild(r: Row, user: int, parent: int) { r.parent == parent && r.tx.user == user && r.tx.code == Fee }

  function FeeChildren(rows: seq<Row>, user: int, parent: int): seq<Row> {
    if rows == [] then []
    else (if IsFeeChild(rows[0], user, parent) then [rows[0]] else []) + FeeChildren(rows[1..], user, parent)
  }

  function WithoutChildren(rows: seq<Row>, user: int, parent: int): seq<Row> {
    if rows == [] then []
    else (if IsFeeChild(rows[0], user, parent) then [] else [rows[0]]) + WithoutChildren(rows[1..], user, parent)
  }

  function RefundPosting(child: Row, user: int, currency: Currency, id: int, day: int): Posting {
    Posting(FeeTarget(child.tx), user, Money(child.tx.amount, currency), FeeReversal, id, day)
  }

  /** A child without an account is passed over. */
  function Refunded(db: Tables, rates: Rates, child: Row, user: int, currency: Currency, id: int,
                    day: int): Option<Tables> {
    if FeeTarget(child.tx) <= 0 then Some(db)
    else PostedUnlessZero(db, rates, RefundPosting(child, user, currency, id, day))
  }

  function AllRefunded(db: Tables, rates: Rates, children: seq<Row>, user: int, currency: Currency, id: int, day: int)
    : Option<Tables>
    decreases |children|
  {
    if children == [] then Some(db)
    else
      match Refunded(db, rates, children[0], user, currency, id, day)
      case Some(db1) => AllRefunded(db1, rates, children[1..], user, currency, id, day)
      case None => None
  }

  function MainReversal(tx: Tx, own: Currency, position: int, id: int, day: int): Posting {
    var delta := if IsTrade(tx.code) then Money(position, own) else Neg(MainDelta(tx, own, 0));
    Posting(tx.asset, tx.user, delta, TransactionReversal, id, day)
  }

  function LinkedReversalOf(tx: Tx, id: int, day: int): Posting {
    Posting(tx.linked, tx.user, Neg(LinkedMoney(tx)), LinkedReversal, id, day)
  }

  /** `ledger_reverse_tx`: the transaction's own row stays, its fee rows go. */
  function Reversed(db: Tables, rates: Rates, day: int, user: int, id: int): Option<Tables> {
    if user <= 0 || id <= 0 || FindRow(db.rows, id, user).None? then None
    else
      var tx := FindRow(db.rows, id, user).value.tx;
      var refunded := AllRefunded(db, rates, FeeChildren(db.rows, user, id), user, tx.currency, id, day);
      if refunded.None? then None
      else
        var db1 := refunded.value.(rows := WithoutChildren(refunded.value.rows, user, id));
        var (db2, position) := PositionRolledBack(db1, rates, tx);
        BothPosted(db2, rates, MainReversal(tx, OwnCurrency(db, tx.asset), position, id, day),
                   LinkedReversalOf(tx, id, day))
  }
  /** Failed calls that `ledger_reverse_tx` takes no notice of: reading and deleting fee rows, reading the position. */
  datatype UnnoticedBack = UnnoticedBack(children: bool, deletion: bool, position: bool)

  function FeesGivenBack(db: Tables, rates: Rates, day: int, user: int, id: int, currency: Currency, u: UnnoticedBack)
    : Option<Tables>
  {
    if u.children then Some(db)
    else
      match AllRefunded(db, rates, FeeChildren(db.rows, user, id), user, currency, id, day)
      case Some(r) => Some(if u.deletion then r else r.(rows := WithoutChildren(r.rows, user, id)))
      case None => None
  }

  /** What it then does: fees are not given back, or given back but not forgotten, or the position stays. */
  function ReversedBut(db: Tables, rates: Rates, day: int, user: int, id: int, u: UnnoticedBack): Option<Tables> {
    if user <= 0 || id <= 0 || FindRow(db.rows, id, user).None? then None
    else
      var tx := FindRow(db.rows, id, user).value.tx;
      var refunded := FeesGivenBack(db, rates, day, user, id, tx.currency, u);
      if refunded.None? then None
      else
        var db1 := refunded.value;
        var (db2, position) := if u.position then (db1, 0) else PositionRolledBack(db1, rates, tx);
        BothPosted(db2, rates, MainReversal(tx, OwnCurrency(db, tx.asset), position, id, day),
                   LinkedReversalOf(tx, id, day))
  }

  lemma {:induction false} AllNoticedBack(db: Tables, rates: Rates, day: int, user: int, id: int)
    ensures ReversedBut(db, rates, day, user, id, UnnoticedBack(false, false, false))
            == Reversed(db, rates, day, user, id)
  {
  }
}
