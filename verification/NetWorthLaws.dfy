/** What transactions do to net worth: assets less liabilities, in one currency or in total. */
module NetWorthLaws {
  import opened Prelude
  import opened Decimals
  import opened TxTypes
  import opened Books
  import opened LedgerLaws
  import opened Valuation
  import P = Position

  /** The assets of a report, in the order of its query. */
  ghost predicate Listed(assets: map<int, Asset>, ids: seq<int>) {
    && (forall i :: 0 <= i < |ids| ==> ids[i] in assets)
    && (forall i, j :: 0 <= i < j < |ids| ==> ids[i] != ids[j])
  }

  function NetOf(a: Asset): int { Turn(a.kind, a.value) }

  /** Assets less liabilities held in one currency, in its minor units. */
  ghost function NetIn(assets: map<int, Asset>, ids: seq<int>, c: Currency): int
    requires Listed(assets, ids)
  {
    if ids == [] then 0
    else (if Canonical(assets[ids[0]].currency) == c then NetOf(assets[ids[0]]) else 0) + NetIn(assets, ids[1..], c)
  }

  /** What an asset adds to the total. */
  function Net(a: Asset, worth: Worth): real { worth(Canonical(a.currency), NetOf(a)) }

  /** The total over all currencies. */
  ghost function NetWorth(assets: map<int, Asset>, ids: seq<int>, worth: Worth): real
    requires Listed(assets, ids)
  {
    if ids == [] then 0.0 else Net(assets[ids[0]], worth) + NetWorth(assets, ids[1..], worth)
  }

  // ---------------------------------------------------------------------------------------
  // One posting

  lemma {:induction false} WorthChange(assets: map<int, Asset>, ids: seq<int>, worth: Worth, id: int, a: Asset)
    requires Listed(assets, ids) && id in assets
    ensures NetWorth(assets[id := a], ids, worth)
            == NetWorth(assets, ids, worth) + (if id in ids then Net(a, worth) - Net(assets[id], worth) else 0.0)
  {
    if ids != [] {
      WorthChange(assets, ids[1..], worth, id, a);
      assert forall x :: x in ids <==> x == ids[0] || x in ids[1..];
    }
  }

  /** A posting in an asset's own currency adds exactly its amount to the total, for liabilities too. */
  lemma {:induction false} PostChangesWorth(db: Tables, rates: Rates, p: Posting, ids: seq<int>, worth: Worth)
    requires Listed(db.assets, ids) && p.asset in db.assets && p.asset in ids && Linear(worth)
    requires Canonical(db.assets[p.asset].currency) == Canonical(p.delta.currency)
    ensures NetWorth(Posted(db, rates, p).assets, ids, worth)
            == NetWorth(db.assets, ids, worth) + worth(Canonical(p.delta.currency), p.delta.units)
  {
    var a, a' := db.assets[p.asset], Posted(db, rates, p).assets[p.asset];
    WorthChange(db.assets, ids, worth, p.asset, a');
    LinearAdd(worth, Canonical(a.currency), NetOf(a), p.delta.units);
  }

  lemma {:induction false} UnlessZeroChangesWorth(db: Tables, rates: Rates, p: Posting, ids: seq<int>, worth: Worth)
    requires Listed(db.assets, ids) && PostedUnlessZero(db, rates, p).Some? && Linear(worth)
    requires p.delta.units != 0 ==> p.asset in ids
                                    && Canonical(db.assets[p.asset].currency) == Canonical(p.delta.currency)
    ensures var after := PostedUnlessZero(db, rates, p).value;
            && SameButValues(db, after)
            && NetWorth(after.assets, ids, worth)
               == NetWorth(db.assets, ids, worth) + worth(Canonical(p.delta.currency), p.delta.units)
  {
    LinearNeg(worth, Canonical(p.delta.currency), 0);
    if p.delta.units != 0 {
      PostChangesWorth(db, rates, p, ids, worth);
    }
  }

  // ---------------------------------------------------------------------------------------
  // One transaction

  /** Owners, kinds and currencies of accounts never change here. */
  ghost predicate SameAccounts(db: Tables, db': Tables) {
    && db'.assets.Keys == db.assets.Keys
    && (forall id :: id in db.assets ==>
          && db'.assets[id].user == db.assets[id].user && db'.assets[id].kind == db.assets[id].kind
          && db'.assets[id].currency == db.assets[id].currency)
  }

  /** Holdings are no part of net worth; the balances marked to them are. */
  lemma {:induction false} HoldingsDoNotCount(db: Tables, db': Tables, ids: seq<int>, worth: Worth)
    requires Listed(db.assets, ids) && SameAccounts(db, db')
    requires forall id :: id in db.assets ==> db'.assets[id].value == db.assets[id].value
    ensures Listed(db'.assets, ids) && NetWorth(db'.assets, ids, worth) == NetWorth(db.assets, ids, worth)
  {
    if ids != [] {
      HoldingsDoNotCount(db, db', ids[1..], worth);
    }
  }

  /**
    * The accounts a transaction posts to are listed, and what is posted to them is in their currency. The
    * asset of a trade may have another one, if it does not pay the fee.
    */
  ghost predicate Matched(db: Tables, tx: Tx, ids: seq<int>) {
    && tx.asset > 0 && tx.asset in ids && tx.asset in db.assets
    && (tx.linked > 0 ==> tx.linked in ids && tx.linked in db.assets
                          && Canonical(db.assets[tx.linked].currency) == Canonical(tx.currency))
    && (Canonical(db.assets[tx.asset].currency) == Canonical(tx.currency)
        || (IsTrade(tx.code) && (tx.linked > 0 || !ChargesFee(tx))))
  }

  /** How far a trade moves its asset: from the old balance to the market value of the new holding. */
  function Revaluation(db: Tables, rates: Rates, tx: Tx): int {
    if HasPosition(db, tx) && AfterTrade(db.assets[tx.asset], tx, rates).Some? then
      var a, h := db.assets[tx.asset], AfterTrade(db.assets[tx.asset], tx, rates).value;
      P.MarketValue(h.net, h.quantity, Precision(a.currency)) - a.value
    else 0
  }

  /** What is posted to the main asset; a trade whose position was not read moves nothing there. */
  function MainMoney(db: Tables, rates: Rates, tx: Tx, u: Unnoticed): Money {
    MainDelta(tx, OwnCurrency(db, tx.asset), if u.position then 0 else Revaluation(db, rates, tx))
  }

  function FeeOf(tx: Tx): int { if ChargesFee(tx) then tx.fee else 0 }

  const NOTHING := Unnoticed(false, false)

  /** What a transaction does to net worth: its main asset's part, the funding account's, and the fee. */
  function WorthEffect(db: Tables, rates: Rates, tx: Tx, u: Unnoticed, worth: Worth): real {
    var main := MainMoney(db, rates, tx, u);
    worth(Canonical(main.currency), main.units) + worth(Canonical(tx.currency), LinkedMoney(tx).units)
    - worth(Canonical(tx.currency), FeeOf(tx))
  }

  lemma {:induction false} FeeChangesWorth(db: Tables, rates: Rates, day: int, tx: Tx, row: int, noRow: bool,
                                           ids: seq<int>, worth: Worth)
    requires Listed(db.assets, ids) && Matched(db, tx, ids) && Linear(worth)
    requires FeeChargedBut(db, rates, day, tx, row, noRow).Some?
    ensures var after := FeeChargedBut(db, rates, day, tx, row, noRow).value;
            && SameButValues(db, after)
            && NetWorth(after.assets, ids, worth)
               == NetWorth(db.assets, ids, worth) - worth(Canonical(tx.currency), FeeOf(tx))
  {
    LinearNeg(worth, Canonical(tx.currency), FeeOf(tx));
    if ChargesFee(tx) {
      var before := if noRow then db else Inserted(db, FeeRow(tx), row);
      UnlessZeroChangesWorth(before, rates, FeePosting(tx, row, day), ids, worth);
    }
  }

  lemma {:induction false} SettledChangesWorth(db: Tables, rates: Rates, day: int, tx: Tx, own: Currency, position: int,
                                               row: int, noRow: bool, ids: seq<int>, worth: Worth)
    requires Listed(db.assets, ids) && Matched(db, tx, ids) && Linear(worth)
    requires own == db.assets[tx.asset].currency
    requires SettledBut(db, rates, day, tx, own, position, row, noRow).Some?
    ensures var after := SettledBut(db, rates, day, tx, own, position, row, noRow).value;
            var main := MainDelta(tx, own, position);
            && SameButValues(db, after)
            && NetWorth(after.assets, ids, worth)
               == NetWorth(db.assets, ids, worth) + worth(Canonical(main.currency), main.units)
                  + worth(Canonical(tx.currency), LinkedMoney(tx).units) - worth(Canonical(tx.currency), FeeOf(tx))
  {
    FeeChangesWorth(db, rates, day, tx, row, noRow, ids, worth);
    var db1 := FeeChargedBut(db, rates, day, tx, row, noRow).value;
    var main := MainPosting(tx, own, position, row, day);
    UnlessZeroChangesWorth(db1, rates, main, ids, worth);
    UnlessZeroChangesWorth(PostedUnlessZero(db1, rates, main).value, rates, LinkedPosting(tx, row, day), ids, worth);
  }

  /** The tables when the row is stored and the position moved, and what is to be posted for it. */
  function Staged(db: Tables, rates: Rates, id: int, tx: Tx, u: Unnoticed): Option<(Tables, int)>
    requires RowStored(db, id, tx).Some?
  {
    var db1 := RowStored(db, id, tx).value.0;
    if u.position then Some((db1, 0)) else PositionApplied(db1, rates, tx)
  }

  /** Applying in its two stages: the row and the position, then the money. */
  lemma {:induction false} AppliedInStages(db: Tables, rates: Rates, day: int, id: int, tx: Tx, u: Unnoticed)
    requires AppliedBut(db, rates, day, id, tx, u).Some?
    ensures RowStored(db, id, tx).Some? && Staged(db, rates, id, tx, u).Some?
    ensures var (db2, position) := Staged(db, rates, id, tx, u).value;
            && SameAccounts(db, db2) && (forall x :: x in db.assets ==> db2.assets[x].value == db.assets[x].value)
            && (u.position ==> db2.assets == db.assets)
            && position == (if u.position then 0 else Revaluation(db, rates, tx))
            && var settled := SettledBut(db2, rates, day, tx, OwnCurrency(db, tx.asset), position,
                                         RowStored(db, id, tx).value.1, u.feeRow);
               settled.Some? && AppliedBut(db, rates, day, id, tx, u).value.0 == settled.value
  {
    assert RowStored(db, id, tx).value.0.assets == db.assets;
  }

  lemma {:induction false} ApplyButChangesWorth(db: Tables, rates: Rates, day: int, id: int, tx: Tx, u: Unnoticed,
                                                ids: seq<int>, worth: Worth)
    requires Listed(db.assets, ids) && Matched(db, tx, ids) && Linear(worth)
    requires AppliedBut(db, rates, day, id, tx, u).Some?
    ensures var after := AppliedBut(db, rates, day, id, tx, u).value.0;
            && SameAccounts(db, after) && Listed(after.assets, ids)
            && NetWorth(after.assets, ids, worth)
               == NetWorth(db.assets, ids, worth) + WorthEffect(db, rates, tx, u, worth)
            && (u.position ==> after.assets[tx.asset].holding == db.assets[tx.asset].holding)
  {
    AppliedInStages(db, rates, day, id, tx, u);
    var (db2, position) := Staged(db, rates, id, tx, u).value;
    HoldingsDoNotCount(db, db2, ids, worth);
    SettledChangesWorth(db2, rates, day, tx, OwnCurrency(db, tx.asset), position, RowStored(db, id, tx).value.1,
                        u.feeRow, ids, worth);
  }

  /**
    * Applying any transaction, trade or not, changes net worth by exactly its effect: of a trade, what its
    * asset is revalued by, less what was paid or plus what was received; of the rest, both registry
    * deltas; and less the fee.
    */
  lemma {:induction false} ApplyChangesWorth(db: Tables, rates: Rates, day: int, id: int, tx: Tx, ids: seq<int>,
                                             worth: Worth)
    requires Listed(db.assets, ids) && Matched(db, tx, ids) && Linear(worth) && Applied(db, rates, day, id, tx).Some?
    ensures var after := Applied(db, rates, day, id, tx).value.0;
            && SameAccounts(db, after) && Listed(after.assets, ids)
            && NetWorth(after.assets, ids, worth)
               == NetWorth(db.assets, ids, worth) + WorthEffect(db, rates, tx, NOTHING, worth)
  {
    AllNoticed(db, rates, day, id, tx);
    ApplyButChangesWorth(db, rates, day, id, tx, NOTHING, ids, worth);
  }

  // ---------------------------------------------------------------------------------------
  // In one currency

  /** The worth that counts the units of one currency. */
  function Only(c: Currency): Worth { (d: Currency, n: int) => if d == c then n as real else 0.0 }

  lemma {:induction false} OnlyIsLinear(c: Currency)
    ensures Linear(Only(c))
  {
  }

  lemma {:induction false} NetInIsWorth(assets: map<int, Asset>, ids: seq<int>, c: Currency)
    requires Listed(assets, ids)
    ensures NetWorth(assets, ids, Only(c)) == NetIn(assets, ids, c) as real
  {
    if ids != [] {
      NetInIsWorth(assets, ids[1..], c);
    }
  }

  /** A posting in an asset's own currency adds exactly its amount to the net there. */
  lemma {:induction false} PostChangesNet(db: Tables, rates: Rates, p: Posting, ids: seq<int>, c: Currency)
    requires Listed(db.assets, ids) && p.asset in db.assets && p.asset in ids
    requires Canonical(db.assets[p.asset].currency) == Canonical(p.delta.currency)
    ensures NetIn(Posted(db, rates, p).assets, ids, c)
            == NetIn(db.assets, ids, c) + (if Canonical(p.delta.currency) == c then p.delta.units else 0)
  {
    OnlyIsLinear(c);
    PostChangesWorth(db, rates, p, ids, Only(c));
    NetInIsWorth(db.assets, ids, c);
    NetInIsWorth(Posted(db, rates, p).assets, ids, c);
  }

  /** What a transaction does to the units of a currency. */
  function NetEffect(db: Tables, rates: Rates, tx: Tx, u: Unnoticed, c: Currency): int {
    var main := MainMoney(db, rates, tx, u);
    (if Canonical(main.currency) == c then main.units else 0)
    + (if Canonical(tx.currency) == c then LinkedMoney(tx).units - FeeOf(tx) else 0)
  }

  lemma {:induction false} ApplyChangesNet(db: Tables, rates: Rates, day: int, id: int, tx: Tx, u: Unnoticed,
                                           ids: seq<int>, c: Currency)
    requires Listed(db.assets, ids) && Matched(db, tx, ids) && AppliedBut(db, rates, day, id, tx, u).Some?
    ensures var after := AppliedBut(db, rates, day, id, tx, u).value.0;
            && Listed(after.assets, ids)
            && NetIn(after.assets, ids, c) == NetIn(db.assets, ids, c) + NetEffect(db, rates, tx, u, c)
  {
    OnlyIsLinear(c);
    ApplyButChangesWorth(db, rates, day, id, tx, u, ids, Only(c));
    NetInIsWorth(db.assets, ids, c);
    NetInIsWorth(AppliedBut(db, rates, day, id, tx, u).value.0.assets, ids, c);
  }

  /** What the funding account pays for a trade, fee included. */
  function Spent(tx: Tx): int { (if tx.code == Buy then tx.amount else -tx.amount) + tx.fee }

  /**
    * A trade within one currency: the net moves by the revaluation of the whole holding against what was
    * paid or received and the fee, and it is unchanged exactly if these are equal.
    */
  lemma {:induction false} TradeMovesNet(db: Tables, rates: Rates, day: int, id: int, tx: Tx, ids: seq<int>)
    requires Listed(db.assets, ids) && Matched(db, tx, ids) && Applied(db, rates, day, id, tx).Some?
    requires HasPosition(db, tx) && Canonical(db.assets[tx.asset].currency) == Canonical(tx.currency) && tx.linked > 0
    ensures AfterTrade(db.assets[tx.asset], tx, rates).Some?
    ensures var after, c := Applied(db, rates, day, id, tx).value.0, Canonical(tx.currency);
            var a, h := db.assets[tx.asset], AfterTrade(db.assets[tx.asset], tx, rates).value;
            var gain := P.MarketValue(h.net, h.quantity, Precision(a.currency)) - a.value;
            && Listed(after.assets, ids)
            && NetIn(after.assets, ids, c) == NetIn(db.assets, ids, c) + gain - Spent(tx)
            && (NetIn(after.assets, ids, c) == NetIn(db.assets, ids, c) <==> gain == Spent(tx))
  {
    AllNoticed(db, rates, day, id, tx);
    ApplyChangesNet(db, rates, day, id, tx, NOTHING, ids, Canonical(tx.currency));
  }

  /**
    * If reading the position fails, the trade still succeeds: the money moves and the holding does not, so
    * the owner is poorer by what was paid.
    */
  lemma {:induction false} UnreadPositionCosts(db: Tables, rates: Rates, day: int, id: int, tx: Tx, noRow: bool,
                                               ids: seq<int>)
    requires Listed(db.assets, ids) && Matched(db, tx, ids) && IsTrade(tx.code) && tx.linked > 0
    requires AppliedBut(db, rates, day, id, tx, Unnoticed(true, noRow)).Some?
    ensures var after, c := AppliedBut(db, rates, day, id, tx, Unnoticed(true, noRow)).value.0, Canonical(tx.currency);
            && Listed(after.assets, ids)
            && after.assets[tx.asset].holding == db.assets[tx.asset].holding
            && NetIn(after.assets, ids, c) == NetIn(db.assets, ids, c) - Spent(tx)
  {
    OnlyIsLinear(Canonical(tx.currency));
    ApplyButChangesWorth(db, rates, day, id, tx, Unnoticed(true, noRow), ids, Only(Canonical(tx.currency)));
    ApplyChangesNet(db, rates, day, id, tx, Unnoticed(true, noRow), ids, Canonical(tx.currency));
  }

  /** Ten units held at 5.00 each; one more bought for 10.00 marks them all at that price. */
  lemma {:induction false} BuyRevaluesTheRest(db: Tables, rates: Rates, day: int, id: int, tx: Tx, ids: seq<int>)
    requires Listed(db.assets, ids) && Matched(db, tx, ids) && Applied(db, rates, day, id, tx).Some?
    requires HasPosition(db, tx) && db.assets[tx.asset].currency == tx.currency && tx.linked > 0
    requires Precision(tx.currency) == 2 && tx.code == Buy
    requires db.assets[tx.asset].holding.quantity == 10_0000 && db.assets[tx.asset].value == 50_00
    requires tx.quantity == 1_0000 && tx.price == 10_0000 && tx.amount == 10_00 && tx.fee == 0
    ensures var after, c := Applied(db, rates, day, id, tx).value.0, Canonical(tx.currency);
            Listed(after.assets, ids) && NetIn(after.assets, ids, c) == NetIn(db.assets, ids, c) + 50_00
  {
    TradeMovesNet(db, rates, day, id, tx, ids);
    ElevenAtTen();
  }

  lemma {:induction false} ElevenAtTen()
    ensures P.MarketValue(10_0000, 11_0000, 2) == 110_00
  {
    assert Pow10(6) == 1_000_000;
  }

  // ---------------------------------------------------------------------------------------
  // Runs

  /** One call of the ledger; `id` <= 0 stores a new row, otherwise an existing one is overwritten. */
  datatype Order = Order(rates: Rates, day: int, id: int, tx: Tx)

  /** The tables after the orders, or None when one is refused. */
  function AllApplied(db: Tables, orders: seq<Order>): Option<Tables>
    decreases |orders|
  {
    if orders == [] then Some(db)
    else
      match Applied(db, orders[0].rates, orders[0].day, orders[0].id, orders[0].tx)
      case Some(result) => AllApplied(result.0, orders[1..])
      case None => None
  }

  function AllEffects(db: Tables, orders: seq<Order>, worth: Worth): real
    requires AllApplied(db, orders).Some?
    decreases |orders|
  {
    if orders == [] then 0.0
    else
      WorthEffect(db, orders[0].rates, orders[0].tx, NOTHING, worth)
      + AllEffects(Applied(db, orders[0].rates, orders[0].day, orders[0].id, orders[0].tx).value.0, orders[1..], worth)
  }

  ghost predicate AllMatched(db: Tables, orders: seq<Order>, ids: seq<int>) {
    forall i :: 0 <= i < |orders| ==> Matched(db, orders[i].tx, ids)
  }

  lemma {:induction false} RestIsMatched(db: Tables, db1: Tables, orders: seq<Order>, ids: seq<int>)
    requires AllMatched(db, orders, ids) && orders != [] && SameAccounts(db, db1)
    ensures AllMatched(db1, orders[1..], ids)
  {
    forall i | 0 <= i < |orders[1..]|
      ensures Matched(db1, orders[1..][i].tx, ids)
    {
      assert Matched(db, orders[i + 1].tx, ids);
    }
  }

  /** Over any run of transactions net worth moves by the sum of their effects, and by nothing else. */
  lemma {:induction false} RunChangesNetWorth(db: Tables, orders: seq<Order>, ids: seq<int>, worth: Worth)
    requires Listed(db.assets, ids) && AllMatched(db, orders, ids) && Linear(worth) && AllApplied(db, orders).Some?
    ensures var end := AllApplied(db, orders).value;
            && Listed(end.assets, ids)
            && NetWorth(end.assets, ids, worth) == NetWorth(db.assets, ids, worth) + AllEffects(db, orders, worth)
    decreases |orders|
  {
    if orders != [] {
      var o := orders[0];
      assert Matched(db, o.tx, ids);
      ApplyChangesWorth(db, o.rates, o.day, o.id, o.tx, ids, worth);
      var db1 := Applied(db, o.rates, o.day, o.id, o.tx).value.0;
      RestIsMatched(db, db1, orders, ids);
      RunChangesNetWorth(db1, orders[1..], ids, worth);
    }
  }

  /** A move of money between two accounts: neither a trade nor a flow. */
  predicate IsTransfer(tx: Tx) { !IsTrade(tx.code) && !IsFlow(tx.code) && tx.linked > 0 }

  function FeesWorth(orders: seq<Order>, worth: Worth): real {
    if orders == [] then 0.0
    else worth(Canonical(orders[0].tx.currency), orders[0].tx.fee) + FeesWorth(orders[1..], worth)
  }

  lemma {:induction false} TransferCostsItsFee(db: Tables, rates: Rates, tx: Tx, worth: Worth)
    requires IsTransfer(tx) && Linear(worth)
    ensures WorthEffect(db, rates, tx, NOTHING, worth) == -worth(Canonical(tx.currency), tx.fee)
  {
    PairCancels(tx.code, tx.amount);
    LinearNeg(worth, Canonical(tx.currency), MainMoney(db, rates, tx, NOTHING).units);
  }

  lemma {:induction false} TransfersCostTheirFees(db: Tables, orders: seq<Order>, worth: Worth)
    requires AllApplied(db, orders).Some? && Linear(worth)
    requires forall i :: 0 <= i < |orders| ==> IsTransfer(orders[i].tx)
    ensures AllEffects(db, orders, worth) == -FeesWorth(orders, worth)
    decreases |orders|
  {
    if orders != [] {
      var o := orders[0];
      TransferCostsItsFee(db, o.rates, o.tx, worth);
      TransfersCostTheirFees(Applied(db, o.rates, o.day, o.id, o.tx).value.0, orders[1..], worth);
    }
  }

  /**
    * Over any run of deposits, withdrawals, interest and transfers between accounts of one currency each,
    * total assets less total liabilities falls by exactly the fees, whichever accounts are liabilities
    * and whatever the currencies are worth.
    */
  lemma {:induction false} TransfersConserveNetWorth(db: Tables, orders: seq<Order>, ids: seq<int>, worth: Worth)
    requires Listed(db.assets, ids) && AllMatched(db, orders, ids) && Linear(worth) && AllApplied(db, orders).Some?
    requires forall i :: 0 <= i < |orders| ==> IsTransfer(orders[i].tx)
    ensures Listed(AllApplied(db, orders).value.assets, ids)
    ensures NetWorth(AllApplied(db, orders).value.assets, ids, worth)
            == NetWorth(db.assets, ids, worth) - FeesWorth(orders, worth)
  {
    RunChangesNetWorth(db, orders, ids, worth);
    TransfersCostTheirFees(db, orders, worth);
  }
}
