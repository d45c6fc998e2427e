/** The audit log explains every balance, and the past can be read off it. */
module Audit {
  import opened Prelude
  import opened Decimals
  import opened TxTypes
  import opened Books
  import P = Position

  function SumDeltas(logs: seq<Log>, asset: int): int {
    if logs == [] then 0
    else
      var last := logs[|logs| - 1];
      SumDeltas(logs[..|logs| - 1], asset) + (if last.asset == asset then last.delta else 0)
  }

  /** Each log carries the balance after it: the opening balance plus all deltas up to it. */
  ghost predicate LogsAddUp(opening: map<int, int>, logs: seq<Log>) {
    forall i :: 0 <= i < |logs| ==>
      && logs[i].asset in opening
      && logs[i].after == opening[logs[i].asset] + SumDeltas(logs[..i + 1], logs[i].asset)
  }

  ghost predicate Audited(opening: map<int, int>, db: Tables) {
    && LogsAddUp(opening, db.logs)
    && (forall id :: id in db.assets ==>
          id in opening && db.assets[id].value == opening[id] + SumDeltas(db.logs, id))
  }

  lemma {:induction false} PostKeepsAudit(opening: map<int, int>, db: Tables, rates: Rates, p: Posting)
    requires Audited(opening, db) && p.asset in db.assets
    ensures Audited(opening, Posted(db, rates, p))
  {
    var after := Posted(db, rates, p);
    assert after.logs[..|db.logs|] == db.logs;
    forall i | 0 <= i < |after.logs|
      ensures && after.logs[i].asset in opening
              && after.logs[i].after
                 == opening[after.logs[i].asset] + SumDeltas(after.logs[..i + 1], after.logs[i].asset)
    {
      if i < |db.logs| {
        assert after.logs[i] == db.logs[i];
        assert after.logs[..i + 1] == db.logs[..i + 1];
      } else {
        assert after.logs[..i + 1] == after.logs;
      }
    }
  }

  /** Holdings and rows are no part of the audit. */
  lemma {:induction false} OnlyValuesCount(opening: map<int, int>, db: Tables, db': Tables)
    requires Audited(opening, db) && db'.logs == db.logs && db'.assets.Keys == db.assets.Keys
    requires forall id :: id in db.assets ==> db'.assets[id].value == db.assets[id].value
    ensures Audited(opening, db')
  {
  }

  lemma {:induction false} PostUnlessZeroKeepsAudit(opening: map<int, int>, db: Tables, rates: Rates, p: Posting)
    requires Audited(opening, db) && PostedUnlessZero(db, rates, p).Some?
    ensures Audited(opening, PostedUnlessZero(db, rates, p).value)
  {
    if p.delta.units != 0 {
      PostKeepsAudit(opening, db, rates, p);
    }
  }

  lemma {:induction false} BothKeepAudit(opening: map<int, int>, db: Tables, rates: Rates, main: Posting,
                                         linked: Posting)
    requires Audited(opening, db) && BothPosted(db, rates, main, linked).Some?
    ensures Audited(opening, BothPosted(db, rates, main, linked).value)
  {
    PostUnlessZeroKeepsAudit(opening, db, rates, main);
    PostUnlessZeroKeepsAudit(opening, PostedUnlessZero(db, rates, main).value, rates, linked);
  }

  lemma {:induction false} ApplyKeepsAudit(opening: map<int, int>, db: Tables, rates: Rates, day: int, id: int, tx: Tx)
    requires Audited(opening, db) && Applied(db, rates, day, id, tx).Some?
    ensures Audited(opening, Applied(db, rates, day, id, tx).value.0)
  {
    var (db1, row) := RowStored(db, id, tx).value;
    var (db2, position) := PositionApplied(db1, rates, tx).value;
    OnlyValuesCount(opening, db, db2);
    if ChargesFee(tx) {
      PostUnlessZeroKeepsAudit(opening, Inserted(db2, FeeRow(tx), row), rates, FeePosting(tx, row, day));
    }
    var db3 := FeeCharged(db2, rates, day, tx, row).value;
    BothKeepAudit(opening, db3, rates, MainPosting(tx, OwnCurrency(db, tx.asset), position, row, day),
                  LinkedPosting(tx, row, day));
  }

  lemma {:induction false} RefundsKeepAudit(opening: map<int, int>, db: Tables, rates: Rates, children: seq<Row>,
                                            user: int, currency: Currency, id: int, day: int)
    requires Audited(opening, db) && AllRefunded(db, rates, children, user, currency, id, day).Some?
    ensures Audited(opening, AllRefunded(db, rates, children, user, currency, id, day).value)
    decreases |children|
  {
    if children != [] {
      if FeeTarget(children[0].tx) > 0 {
        PostUnlessZeroKeepsAudit(opening, db, rates, RefundPosting(children[0], user, currency, id, day));
      }
      var db1 := Refunded(db, rates, children[0], user, currency, id, day).value;
      RefundsKeepAudit(opening, db1, rates, children[1..], user, currency, id, day);
    }
  }

  lemma {:induction false} ReverseKeepsAudit(opening: map<int, int>, db: Tables, rates: Rates, day: int, user: int,
                                             id: int)
    requires Audited(opening, db) && Reversed(db, rates, day, user, id).Some?
    ensures Audited(opening, Reversed(db, rates, day, user, id).value)
  {
    var tx := FindRow(db.rows, id, user).value.tx;
    RefundsKeepAudit(opening, db, rates, FeeChildren(db.rows, user, id), user, tx.currency, id, day);
    var refunded := AllRefunded(db, rates, FeeChildren(db.rows, user, id), user, tx.currency, id, day).value;
    var db1 := refunded.(rows := WithoutChildren(refunded.rows, user, id));
    var (db2, position) := PositionRolledBack(db1, rates, tx);
    OnlyValuesCount(opening, refunded, db2);
    BothKeepAudit(opening, db2, rates, MainReversal(tx, OwnCurrency(db, tx.asset), position, id, day),
                  LinkedReversalOf(tx, id, day));
  }

  // ---------------------------------------------------------------------------------------
  // The past

  function SumAfter(logs: seq<Log>, asset: int, day: int): int {
    if logs == [] then 0
    else
      var last := logs[|logs| - 1];
      SumAfter(logs[..|logs| - 1], asset, day) + (if last.asset == asset && last.day > day then last.delta else 0)
  }

  /** The balance stated by the last log of `asset` on or before `day`, or the opening balance. */
  function BalanceOn(opening: int, logs: seq<Log>, asset: int, day: int): int {
    if logs == [] then opening
    else
      var last := logs[|logs| - 1];
      if last.asset == asset && last.day <= day then last.after
      else BalanceOn(opening, logs[..|logs| - 1], asset, day)
  }

  ghost predicate InOrder(logs: seq<Log>) {
    forall i, j :: 0 <= i <= j < |logs| ==> logs[i].day <= logs[j].day
  }

  /** The log in its order, with nothing from after `today`. */
  ghost predicate Dated(logs: seq<Log>, today: int) {
    InOrder(logs) && forall i :: 0 <= i < |logs| ==> logs[i].day <= today
  }

  lemma {:induction false} PostKeepsDates(db: Tables, rates: Rates, p: Posting)
    requires Dated(db.logs, p.day) && p.asset in db.assets
    ensures Dated(Posted(db, rates, p).logs, p.day)
  {
  }

  lemma {:induction false} NoneAfter(logs: seq<Log>, asset: int, day: int)
    requires forall i :: 0 <= i < |logs| ==> logs[i].day <= day
    ensures SumAfter(logs, asset, day) == 0
  {
    if logs != [] {
      NoneAfter(logs[..|logs| - 1], asset, day);
    }
  }

  lemma {:induction false} PrefixAddsUp(opening: map<int, int>, logs: seq<Log>)
    requires LogsAddUp(opening, logs) && logs != []
    ensures LogsAddUp(opening, logs[..|logs| - 1])
  {
    var front := logs[..|logs| - 1];
    forall i | 0 <= i < |front|
      ensures front[..i + 1] == logs[..i + 1] && front[i] == logs[i]
    {
    }
  }

  /** Taking the later deltas off today's balance gives the balance the log states for that day. */
  lemma {:induction false} BackwardsIsHistory(opening: map<int, int>, logs: seq<Log>, asset: int, day: int)
    requires LogsAddUp(opening, logs) && InOrder(logs) && asset in opening
    ensures opening[asset] + SumDeltas(logs, asset) - SumAfter(logs, asset, day)
            == BalanceOn(opening[asset], logs, asset, day)
  {
    if logs != [] {
      var last := logs[|logs| - 1];
      if last.asset == asset && last.day <= day {
        assert logs[..|logs|] == logs;
        NoneAfter(logs, asset, day);
      } else {
        PrefixAddsUp(opening, logs);
        BackwardsIsHistory(opening, logs[..|logs| - 1], asset, day);
      }
    }
  }
}
