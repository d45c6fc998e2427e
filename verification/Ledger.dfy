/**
  * Posting, applying and reversing as the program does them: one database call after the other, each of
  * which may fail, inside a scope that restores the tables when something goes wrong.
  */
module Ledger {
  import opened Prelude
  import opened Decimals
  import opened TxTypes
  import opened Books
  import opened Audit
  import P = Position

  class Book {
    const rates: Rates
    /** Which database calls fail. */
    const fails: nat -> bool
    var calls: nat
    var db: Tables
    var today: int
    ghost const opening: map<int, int>

    /** Every balance is explained by the log, and the log is in the order of its days. */
    ghost predicate Valid() reads this { Audited(opening, db) && Dated(db.logs, today) }

    /** No call in the given range fails. */
    ghost predicate Clean(from: nat, to: nat) { forall k :: from <= k < to ==> !fails(k) }

    constructor (rates: Rates, fails: nat -> bool, db: Tables, today: int, ghost opening: map<int, int>)
      requires Audited(opening, db) && Dated(db.logs, today)
      ensures Valid() && this.db == db && this.rates == rates && this.fails == fails && this.today == today
    {
      this.rates, this.fails, this.db, this.today, this.opening := rates, fails, db, today, opening;
      calls := 0;
    }

    /** Time passes. */
    method Wait(days: nat)
      requires Valid()
      modifies this`today
      ensures Valid() && today == old(today) + days
    {
      today := today + days;
    }

    method Call() returns (ok: bool)
      modifies this`calls
      ensures calls == old(calls) + 1 && ok == !fails(old(calls))
    {
      ok := !fails(calls);
      calls := calls + 1;
    }

    /** Updates the balance, reads it back and logs it; the caller's scope undoes what a failure leaves behind. */
    method UpdateAndLog(id: int, user: int, signed: int, source: Source, sourceId: int) returns (ok: bool)
      requires id in db.assets
      modifies this`db, this`calls
      ensures old(calls) < calls <= old(calls) + 3
      ensures ok ==> Clean(old(calls), calls) && calls == old(calls) + 3
      ensures !ok ==> fails(calls - 1)
      ensures var after := old(db.assets[id].value) + signed;
              ok ==> db == old(db).(assets := old(db).assets[id := old(db).assets[id].(value := after)],
                                    logs := old(db).logs + [Log(id, user, signed, after, source, sourceId, today)])
    {
      var asset := db.assets[id];
      ok := Call();
      if !ok {
        return;
      }
      db := db.(assets := db.assets[id := asset.(value := asset.value + signed)]);
      ok := Call();
      if !ok {
        return;
      }
      var after := db.assets[id].value;
      ok := Call();
      if !ok {
        return;
      }
      db := db.(logs := db.logs + [Log(id, user, signed, after, source, sourceId, today)]);
    }

    /** What happens once the asset is found: everything, or nothing and a failed call. */
    method PostFound(p: Posting) returns (ok: bool)
      requires Valid() && p.asset in db.assets && p.day == today
      modifies this`db, this`calls
      ensures Valid() && old(calls) < calls <= old(calls) + 4
      ensures ok ==> Clean(old(calls), calls) && calls == old(calls) + 4 && db == Posted(old(db), rates, p)
      ensures !ok ==> fails(calls - 1) && db == old(db)
    {
      var saved := db;
      var signed := SignedDelta(db.assets[p.asset], p.delta);
      PostKeepsAudit(opening, db, rates, p);
      PostKeepsDates(db, rates, p);
      ok := UpdateAndLog(p.asset, p.user, signed, p.source, p.sourceId);
      if ok {
        ok := Call();
      }
      if !ok {
        db := saved;
      }
    }

    /**
      * `balance_apply_delta_m`. A missing source label, a foreign asset and a failing call are refused,
      * and then nothing has changed.
      */
    method ApplyDelta(id: int, user: int, delta: Money, source: Option<Source>, sourceId: int) returns (rc: int)
      requires Valid()
      modifies this`db, this`calls
      ensures Valid() && old(calls) <= calls <= old(calls) + 6
      ensures rc == 0 <==> && id > 0 && user > 0 && source.Some? && Owns(old(db), id, user)
                           && Clean(old(calls), old(calls) + 6)
      ensures rc == 0 ==> db == Posted(old(db), rates, Posting(id, user, delta, source.value, sourceId, today))
      ensures rc != 0 ==> db == old(db)
      ensures rc == -1 <==> id <= 0 || user <= 0 || source.None?
                            || (Clean(old(calls), old(calls) + 2) && !Owns(old(db), id, user))
      ensures rc == 0 || rc == -1 || (rc == -2 && calls > 0 && old(calls) <= calls - 1 && fails(calls - 1))
    {
      if id <= 0 || user <= 0 || source.None? {
        return -1;
      }
      ghost var first := calls;
      var begun := Call();
      if !begun {
        assert fails(first);
        return -2;
      }
      var selected := Call();
      if !selected {
        assert fails(first + 1);
        return -2;
      }
      assert Clean(first, first + 2);
      if !Owns(db, id, user) {
        return -1;
      }
      var ok := PostFound(Posting(id, user, delta, source.value, sourceId, today));
      assert ok ==> Clean(first, first + 6);
      assert !ok ==> fails(calls - 1) && !Clean(first, first + 6);
      rc := if ok then 0 else -2;
    }

    /** The delta in the asset's currency, and its direction for liabilities. */
    method SignedDelta(asset: Asset, delta: Money) returns (signed: int)
      ensures signed == Signed(asset, delta, rates)
    {
      var target := delta;
      if Canonical(delta.currency) != Canonical(asset.currency) {
        target := Convert(delta, asset.currency, rates);
      }
      signed := target.units;
      if BalanceDirection(asset.kind) < 0 {
        signed := -target.units;
      }
    }

    /** The ledger's way to post: nothing for a zero delta, and every refusal is a failure. */
    method Post(p: Posting) returns (ok: bool)
      requires Valid() && p.day == today
      modifies this`db, this`calls
      ensures Valid() && old(calls) <= calls
      ensures ok ==> PostedUnlessZero(old(db), rates, p) == Some(db)
      ensures !ok ==> db == old(db) && (PostedUnlessZero(old(db), rates, p).None? || !Clean(old(calls), calls))
    {
      if p.delta.units == 0 {
        return true;
      }
      var rc := ApplyDelta(p.asset, p.user, p.delta, Some(p.source), p.sourceId);
      ok := rc == 0;
    }

    // -------------------------------------------------------------------------------------
    // Positions

    /**
      * `apply_position_fc`. A failing query reads as an asset that is not there; a failing update is an
      * error, and so is selling more than there is.
      */
    method ApplyPosition(tx: Tx) returns (rc: int, delta: int)
      requires Valid()
      modifies this`db, this`calls
      ensures Valid() && old(calls) < calls
      ensures rc == 0 ==> Some((db, delta))
                          == if fails(old(calls)) then Some((old(db), 0)) else PositionApplied(old(db), rates, tx)
      ensures rc != 0 ==> db == old(db) && rc < 0 && !fails(old(calls))
                          && (PositionApplied(old(db), rates, tx).None?
                              || (calls == old(calls) + 2 && fails(old(calls) + 1)))
    {
      var selected := Call();
      if !selected || !HasPosition(db, tx) {
        return 0, 0;
      }
      var holding := AfterTrade(db.assets[tx.asset], tx, rates);
      if holding.None? {
        return -1, 0;
      }
      rc, delta := StorePosition(tx.asset, holding.value);
    }

    method StorePosition(id: int, holding: P.Holding) returns (rc: int, delta: int)
      requires Valid() && id in db.assets
      modifies this`db, this`calls
      ensures Valid() && calls == old(calls) + 1
      ensures rc == if fails(old(calls)) then -2 else 0
      ensures delta == Repositioned(old(db), id, holding).1
      ensures db == if rc == 0 then Repositioned(old(db), id, holding).0 else old(db)
    {
      var asset := db.assets[id];
      delta := P.MarketValue(holding.net, holding.quantity, Precision(asset.currency)) - asset.value;
      var updated := Call();
      if !updated {
        return -2, delta;
      }
      OnlyValuesCount(opening, db, Repositioned(db, id, holding).0);
      db := db.(assets := db.assets[id := asset.(holding := holding)]);
      rc := 0;
    }

    /** `rollback_position_fc` */
    method RollbackPosition(tx: Tx) returns (rc: int, delta: int)
      requires Valid()
      modifies this`db, this`calls
      ensures Valid() && old(calls) <= calls && (tx.asset > 0 ==> old(calls) < calls)
      ensures rc == 0 ==> (db, delta) == if tx.asset > 0 && fails(old(calls)) then (old(db), 0)
                                         else PositionRolledBack(old(db), rates, tx)
      ensures rc != 0 ==> db == old(db) && !fails(old(calls)) && fails(old(calls) + 1) && calls == old(calls) + 2
    {
      if tx.asset <= 0 {
        return 0, 0;
      }
      var selected := Call();
      if !selected || !HasPosition(db, tx) {
        return 0, 0;
      }
      rc, delta := StorePosition(tx.asset, WithoutTrade(db.assets[tx.asset], tx, rates));
    }

    // -------------------------------------------------------------------------------------
    // Applying

    method StoreRow(id: int, tx: Tx) returns (ok: bool, row: int)
      requires Valid()
      modifies this`db, this`calls
      ensures Valid() && calls == old(calls) + 1
      ensures db.assets == old(db.assets)
      ensures ok ==> RowStored(old(db), id, tx) == Some((db, row))
      ensures !ok ==> RowStored(old(db), id, tx).None? || !Clean(old(calls), calls)
    {
      row := id;
      ok := Call();
      if !ok {
        return;
      }
      if id <= 0 {
        row := db.nextRow;
        db := Inserted(db, tx, 0);
      } else {
        ok := FindRow(db.rows, id, tx.user).Some?;
        if ok {
          db := db.(rows := Updated(db.rows, id, tx));
        }
      }
    }

    /** The fee's row may fail to be written without further notice; charging the fee may not. */
    method ChargeFee(tx: Tx, row: int) returns (ok: bool)
      requires Valid()
      modifies this`db, this`calls
      ensures Valid() && old(calls) <= calls && (ChargesFee(tx) ==> old(calls) < calls)
      ensures ok ==> FeeChargedBut(old(db), rates, today, tx, row, fails(old(calls))) == Some(db)
      ensures !ok ==> FeeCharged(old(db), rates, today, tx, row).None? || !Clean(old(calls), calls)
    {
      if !ChargesFee(tx) {
        return true;
      }
      var inserted := Call();
      if inserted {
        OnlyValuesCount(opening, db, Inserted(db, FeeRow(tx), row));
        db := Inserted(db, FeeRow(tx), row);
      }
      ok := Post(FeePosting(tx, row, today));
    }

    method PostBoth(main: Posting, linked: Posting) returns (ok: bool)
      requires Valid() && main.day == linked.day == today
      modifies this`db, this`calls
      ensures Valid() && old(calls) <= calls
      ensures ok ==> BothPosted(old(db), rates, main, linked) == Some(db)
      ensures !ok ==> BothPosted(old(db), rates, main, linked).None? || !Clean(old(calls), calls)
    {
      ok := Post(main);
      if ok {
        ok := Post(linked);
      }
    }

    method Settle(tx: Tx, own: Currency, position: int, row: int) returns (ok: bool)
      requires Valid()
      modifies this`db, this`calls
      ensures Valid() && old(calls) <= calls && (ChargesFee(tx) ==> old(calls) < calls)
      ensures ok ==> SettledBut(old(db), rates, today, tx, own, position, row, fails(old(calls))) == Some(db)
      ensures !ok ==> Settled(old(db), rates, today, tx, own, position, row).None? || !Clean(old(calls), calls)
    {
      ok := ChargeFee(tx, row);
      if ok {
        ok := PostBoth(MainPosting(tx, own, position, row, today), LinkedPosting(tx, row, today));
      }
    }

    /** The part of `ledger_apply_tx` inside its scope. */
    method ApplyInScope(id: int, tx: Tx) returns (ok: bool, row: int, ghost u: Unnoticed)
      requires Valid() && tx.user > 0 && tx.asset > 0 && LedgerKnows(tx.code)
      modifies this`db, this`calls
      ensures Valid() && old(calls) <= calls
      ensures ok ==> AppliedBut(old(db), rates, today, id, tx, u) == Some((db, row))
      ensures !ok ==> Applied(old(db), rates, today, id, tx).None? || !Clean(old(calls), calls)
      ensures u.position || u.feeRow ==> !Clean(old(calls), calls)
    {
      u := Unnoticed(false, false);
      ok, row := StoreRow(id, tx);
      if !ok {
        return;
      }
      var own := OwnCurrency(db, tx.asset);
      var position := 0;
      if IsTrade(tx.code) {
        u := u.(position := fails(calls));
        var rc, delta := ApplyPosition(tx);
        if rc < 0 {
          ok := false;
          return;
        }
        position := delta;
      }
      u := u.(feeRow := ChargesFee(tx) && fails(calls));
      ok := Settle(tx, own, position, row);
    }

    /**
      * `ledger_apply_tx`. A failure leaves the tables as they were, and there is one only if the transaction
      * is refused or a call failed. A success is the transaction, up to failed calls it took no notice of.
      */
    method ApplyTx(id: int, tx: Tx) returns (rc: int, row: int, ghost u: Unnoticed)
      requires Valid()
      modifies this`db, this`calls
      ensures Valid() && old(calls) <= calls && (rc == 0 || rc == -1)
      ensures rc == 0 ==> AppliedBut(old(db), rates, today, id, tx, u) == Some((db, row))
      ensures u.position || u.feeRow ==> !Clean(old(calls), calls)
      ensures rc != 0 ==> db == old(db) && (Applied(old(db), rates, today, id, tx).None? || !Clean(old(calls), calls))
      ensures Clean(old(calls), calls) && rc == 0 ==> Applied(old(db), rates, today, id, tx) == Some((db, row))
    {
      rc, row, u := -1, id, Unnoticed(false, false);
      if tx.user <= 0 || tx.asset <= 0 || !LedgerKnows(tx.code) {
        return;
      }
      var begun := Call();
      if !begun {
        return;
      }
      var saved := db;
      var ok;
      ok, row, u := ApplyInScope(id, tx);
      if !ok {
        db, row := saved, id;
        return;
      }
      rc := 0;
      AllNoticed(old(db), rates, today, id, tx);
    }

    // -------------------------------------------------------------------------------------
    // Reversing

    /** Gives back the fees of the child rows, in their order. */
    method RefundFees(children: seq<Row>, user: int, currency: Currency, id: int) returns (ok: bool)
      requires Valid()
      modifies this`db, this`calls
      ensures Valid() && old(calls) <= calls
      ensures ok ==> AllRefunded(old(db), rates, children, user, currency, id, today) == Some(db)
      ensures !ok ==> AllRefunded(old(db), rates, children, user, currency, id, today).None?
                      || !Clean(old(calls), calls)
    {
      ghost var goal := AllRefunded(db, rates, children, user, currency, id, today);
      for i := 0 to |children|
        invariant Valid() && old(calls) <= calls
        invariant AllRefunded(db, rates, children[i..], user, currency, id, today) == goal
      {
        var child := children[i];
        assert children[i..][0] == child && children[i..][1..] == children[i + 1..];
        if FeeTarget(child.tx) > 0 {
          ok := Post(RefundPosting(child, user, currency, id, today));
          if !ok {
            return;
          }
        }
      }
      ok := true;
    }

    method DeleteChildren(user: int, id: int)
      requires Valid()
      modifies this`db, this`calls
      ensures Valid() && calls == old(calls) + 1
      ensures db == if fails(old(calls)) then old(db) else old(db).(rows := WithoutChildren(old(db).rows, user, id))
    {
      var deleted := Call();
      if deleted {
        db := db.(rows := WithoutChildren(db.rows, user, id));
      }
    }

    method GiveFeesBack(user: int, id: int, currency: Currency) returns (ok: bool, ghost u: UnnoticedBack)
      requires Valid()
      modifies this`db, this`calls
      ensures Valid() && old(calls) <= calls && !u.position
      ensures ok ==> FeesGivenBack(old(db), rates, today, user, id, currency, u) == Some(db)
      ensures !ok ==> AllRefunded(old(db), rates, FeeChildren(old(db).rows, user, id), user, currency, id, today).None?
                      || !Clean(old(calls), calls)
      ensures u.children || u.deletion ==> !Clean(old(calls), calls)
    {
      u := UnnoticedBack(fails(calls), false, false);
      var selected := Call();
      if !selected {
        return true, u;
      }
      ok := RefundFees(FeeChildren(db.rows, user, id), user, currency, id);
      if ok {
        u := u.(deletion := fails(calls));
        DeleteChildren(user, id);
      }
    }

    /** The part of `ledger_reverse_tx` inside its scope, for the row `tx`. */
    method ReverseInScope(user: int, id: int, tx: Tx) returns (ok: bool, ghost u: UnnoticedBack)
      requires Valid() && user > 0 && id > 0 && FindRow(db.rows, id, user).Some?
      requires FindRow(db.rows, id, user).value.tx == tx && tx.user == user
      modifies this`db, this`calls
      ensures Valid() && old(calls) <= calls
      ensures ok ==> ReversedBut(old(db), rates, today, user, id, u) == Some(db)
      ensures !ok ==> Reversed(old(db), rates, today, user, id).None? || !Clean(old(calls), calls)
      ensures u.children || u.deletion || u.position ==> !Clean(old(calls), calls)
    {
      var own := OwnCurrency(db, tx.asset);
      ok, u := GiveFeesBack(user, id, tx.currency);
      if !ok {
        return;
      }
      var position := 0;
      if IsTrade(tx.code) {
        u := u.(position := tx.asset > 0 && fails(calls));
        var rc, delta := RollbackPosition(tx);
        if rc != 0 {
          ok := false;
          return;
        }
        position := delta;
      }
      ok := PostBoth(MainReversal(tx, own, position, id, today), LinkedReversalOf(tx, id, today));
    }

    /** `ledger_reverse_tx`, with the same promises. */
    method ReverseTx(user: int, id: int) returns (rc: int, ghost u: UnnoticedBack)
      requires Valid()
      modifies this`db, this`calls
      ensures Valid() && old(calls) <= calls && (rc == 0 || rc == -1)
      ensures rc == 0 ==> ReversedBut(old(db), rates, today, user, id, u) == Some(db)
      ensures u.children || u.deletion || u.position ==> !Clean(old(calls), calls)
      ensures rc != 0 ==> db == old(db)
                          && (Reversed(old(db), rates, today, user, id).None? || !Clean(old(calls), calls))
      ensures Clean(old(calls), calls) && rc == 0 ==> Reversed(old(db), rates, today, user, id) == Some(db)
    {
      rc, u := -1, UnnoticedBack(false, false, false);
      if user <= 0 || id <= 0 {
        return;
      }
      var begun := Call();
      if !begun {
        return;
      }
      var saved := db;
      var selected := Call();
      if !selected {
        return;
      }
      var found := FindRow(db.rows, id, user);
      if found.None? {
        return;
      }
      FindRowFinds(db.rows, id, user);
      var ok;
      ok, u := ReverseInScope(user, id, found.value.tx);
      if !ok {
        db := saved;
        return;
      }
      rc := 0;
      AllNoticedBack(old(db), rates, today, user, id);
    }
  }

  lemma {:induction false} FindRowFinds(rows: seq<Row>, id: int, user: int)
    ensures FindRow(rows, id, user).Some? ==>
              var r := FindRow(rows, id, user).value; r in rows && r.id == id && r.tx.user == user
  {
    if rows != [] && !(rows[0].id == id && rows[0].tx.user == user) {
      FindRowFinds(rows[1..], id, user);
    }
  }
}
