/**
  * The asset reports: net worth at five sample days rebuilt by taking later balance changes off today's
  * balances, and the change of net worth over the last 30 days.
  */
module AssetReport {
  import opened Decimals
  import opened Books
  import opened Audit
  import opened NetWorthLaws
  import opened Valuation

  /** What `n` minor units in an asset of this kind and currency add to net worth. */
  function Weighted(kind: AssetType, currency: Currency, n: int, worth: Worth): real {
    worth(Canonical(currency), Turn(kind, n))
  }

  // ---------------------------------------------------------------------------------------
  // The trend

  datatype TrendAsset = TrendAsset(id: int, value: int, currency: Currency, kind: AssetType, created: int)

  datatype TrendLog = TrendLog(asset: int, delta: int, day: int)

  /** The period asked for, in days; 30 if it is not between 1 and 365. */
  function Days(requested: int): int { if requested <= 0 || requested > 365 then 30 else requested }

  function SampleDay(today: int, days: int, k: int): int { today - (4 - k) * (days - 1) / 4 }

  /** The samples run from the first day of the period, up to a year or else 30 days, to today. */
  lemma {:induction false} SamplesSpanPeriod(today: int, requested: int)
    ensures 1 <= requested <= 365 ==> SampleDay(today, Days(requested), 0) == today - requested + 1
    ensures requested < 1 || requested > 365 ==> SampleDay(today, Days(requested), 0) == today - 29
    ensures SampleDay(today, Days(requested), 4) == today
    ensures forall j, k :: 0 <= j <= k <= 4 ==>
              SampleDay(today, Days(requested), j) <= SampleDay(today, Days(requested), k)
  {
  }

  function After(logs: seq<TrendLog>, asset: int, day: int): int {
    if logs == [] then 0
    else
      var last := logs[|logs| - 1];
      After(logs[..|logs| - 1], asset, day) + (if last.asset == asset && last.day > day then last.delta else 0)
  }

  /** The query keeps the logs from the first sample day on. */
  function Since(logs: seq<TrendLog>, day: int): seq<TrendLog> {
    if logs == [] then []
    else
      Since(logs[..|logs| - 1], day) + (if logs[|logs| - 1].day >= day then [logs[|logs| - 1]] else [])
  }

  /** Older logs make no difference to any later day. */
  lemma {:induction false} OldLogsDoNotMatter(logs: seq<TrendLog>, from: int, asset: int, day: int)
    requires from <= day
    ensures After(Since(logs, from), asset, day) == After(logs, asset, day)
  {
    if logs != [] {
      OldLogsDoNotMatter(logs[..|logs| - 1], from, asset, day);
      var last := logs[|logs| - 1];
      var kept := Since(logs[..|logs| - 1], from);
      if last.day >= from {
        assert (kept + [last])[..|kept + [last]| - 1] == kept;
      } else {
        assert kept + [] == kept;
      }
    }
  }

  /** One side of a sample: the assets or the liabilities that existed by `day`. */
  function PointSum(assets: seq<TrendAsset>, logs: seq<TrendLog>, day: int, liabilities: bool, worth: Worth): real {
    if assets == [] then 0.0
    else
      var a := assets[|assets| - 1];
      PointSum(assets[..|assets| - 1], logs, day, liabilities, worth)
      + (if a.created <= day && IsLiability(a.kind) == liabilities
         then worth(Canonical(a.currency), a.value - After(logs, a.id, day)) else 0.0)
  }

  lemma {:induction false} OldLogsDoNotMatterToPoints(assets: seq<TrendAsset>, logs: seq<TrendLog>, from: int, day: int,
                                                      liabilities: bool, worth: Worth)
    requires from <= day
    ensures PointSum(assets, Since(logs, from), day, liabilities, worth)
            == PointSum(assets, logs, day, liabilities, worth)
  {
    if assets != [] {
      OldLogsDoNotMatterToPoints(assets[..|assets| - 1], logs, from, day, liabilities, worth);
      OldLogsDoNotMatter(logs, from, assets[|assets| - 1].id, day);
    }
  }

  method TakeBack(value: int, logs: seq<TrendLog>, asset: int, day: int) returns (val: int)
    ensures val == value - After(logs, asset, day)
  {
    val := value;
    for l := 0 to |logs|
      invariant val == value - After(logs[..l], asset, day)
    {
      assert logs[..l + 1][..l] == logs[..l];
      if logs[l].asset == asset && logs[l].day > day {
        val := val - logs[l].delta;
      }
    }
    assert logs[..|logs|] == logs;
  }

  method SamplePoint(assets: seq<TrendAsset>, logs: seq<TrendLog>, day: int, worth: Worth)
    returns (ptAssets: real, ptLiabs: real)
    ensures ptAssets == PointSum(assets, logs, day, false, worth)
    ensures ptLiabs == PointSum(assets, logs, day, true, worth)
  {
    ptAssets, ptLiabs := 0.0, 0.0;
    for i := 0 to |assets|
      invariant ptAssets == PointSum(assets[..i], logs, day, false, worth)
      invariant ptLiabs == PointSum(assets[..i], logs, day, true, worth)
    {
      assert assets[..i + 1][..i] == assets[..i];
      var a := assets[i];
      if a.created <= day {
        var val := TakeBack(a.value, logs, a.id, day);
        var converted := worth(Canonical(a.currency), val);
        if IsLiability(a.kind) {
          ptLiabs := ptLiabs + converted;
        } else {
          ptAssets := ptAssets + converted;
        }
      }
    }
    assert assets[..|assets|] == assets;
  }

  /** `report_asset_trend`; the result does not depend on logs older than the first sample. */
  method Trend(today: int, requested: int, assets: seq<TrendAsset>, allLogs: seq<TrendLog>, worth: Worth)
    returns (days: seq<int>, ptAssets: seq<real>, ptLiabs: seq<real>)
    ensures |days| == |ptAssets| == |ptLiabs| == 5
    ensures forall k :: 0 <= k < 5 ==> days[k] == SampleDay(today, Days(requested), k)
    ensures forall k :: 0 <= k < 5 ==> ptAssets[k] == PointSum(assets, allLogs, days[k], false, worth)
    ensures forall k :: 0 <= k < 5 ==> ptLiabs[k] == PointSum(assets, allLogs, days[k], true, worth)
  {
    SamplesSpanPeriod(today, requested);
    days := seq(5, k => SampleDay(today, Days(requested), k));
    var logs := Since(allLogs, days[0]);
    ptAssets, ptLiabs := [], [];
    for k := 0 to 5
      invariant |ptAssets| == |ptLiabs| == k
      invariant forall j :: 0 <= j < k ==> ptAssets[j] == PointSum(assets, allLogs, days[j], false, worth)
      invariant forall j :: 0 <= j < k ==> ptLiabs[j] == PointSum(assets, allLogs, days[j], true, worth)
    {
      var a, l := SamplePoint(assets, logs, days[k], worth);
      OldLogsDoNotMatterToPoints(assets, allLogs, days[0], days[k], false, worth);
      OldLogsDoNotMatterToPoints(assets, allLogs, days[0], days[k], true, worth);
      ptAssets, ptLiabs := ptAssets + [a], ptLiabs + [l];
    }
  }

  // ---------------------------------------------------------------------------------------
  // The trend is the recorded history

  function TrendRow(id: int, a: Asset): TrendAsset { TrendAsset(id, a.value, a.currency, a.kind, a.created) }

  function AssetRows(assets: map<int, Asset>, ids: seq<int>): seq<TrendAsset>
    requires forall i :: 0 <= i < |ids| ==> ids[i] in assets
  {
    if ids == [] then []
    else
      var last := ids[|ids| - 1];
      AssetRows(assets, ids[..|ids| - 1]) + [TrendRow(last, assets[last])]
  }

  function LogRows(logs: seq<Log>): (r: seq<TrendLog>)
    ensures |r| == |logs|
  {
    if logs == [] then []
    else
      var last := logs[|logs| - 1];
      LogRows(logs[..|logs| - 1]) + [TrendLog(last.asset, last.delta, last.day)]
  }

  lemma {:induction false} SameAfter(logs: seq<Log>, asset: int, day: int)
    ensures After(LogRows(logs), asset, day) == SumAfter(logs, asset, day)
  {
    if logs != [] {
      SameAfter(logs[..|logs| - 1], asset, day);
      assert LogRows(logs)[..|logs| - 1] == LogRows(logs[..|logs| - 1]);
    }
  }

  /** The recorded net worth on a day: the last logged or opening balances of the assets created by then. */
  ghost function RecordedWorth(db: Tables, opening: map<int, int>, ids: seq<int>, day: int, worth: Worth): real
    requires forall i :: 0 <= i < |ids| ==> ids[i] in db.assets && ids[i] in opening
  {
    if ids == [] then 0.0
    else
      var last := ids[|ids| - 1];
      var a := db.assets[last];
      RecordedWorth(db, opening, ids[..|ids| - 1], day, worth)
      + (if a.created <= day then Weighted(a.kind, a.currency, BalanceOn(opening[last], db.logs, last, day), worth)
         else 0.0)
  }

  lemma {:induction false} RebuiltBalance(db: Tables, opening: map<int, int>, id: int, day: int)
    requires Audited(opening, db) && InOrder(db.logs) && id in db.assets
    ensures db.assets[id].value - After(LogRows(db.logs), id, day) == BalanceOn(opening[id], db.logs, id, day)
  {
    SameAfter(db.logs, id, day);
    BackwardsIsHistory(opening, db.logs, id, day);
  }

  /** What one asset adds to a sample, on its side of the report. */
  lemma {:induction false} RebuiltSide(db: Tables, opening: map<int, int>, id: int, day: int, worth: Worth)
    requires Audited(opening, db) && InOrder(db.logs) && id in db.assets && Linear(worth)
    ensures var a := db.assets[id];
            var side := worth(Canonical(a.currency), a.value - After(LogRows(db.logs), id, day));
            (if IsLiability(a.kind) then -side else side)
            == Weighted(a.kind, a.currency, BalanceOn(opening[id], db.logs, id, day), worth)
  {
    RebuiltBalance(db, opening, id, day);
    LinearNeg(worth, Canonical(db.assets[id].currency), BalanceOn(opening[id], db.logs, id, day));
  }

  lemma {:induction false} OneMoreRow(assets: map<int, Asset>, ids: seq<int>, logs: seq<TrendLog>, day: int,
                                      worth: Worth)
    requires ids != [] && forall i :: 0 <= i < |ids| ==> ids[i] in assets
    ensures var front, last := ids[..|ids| - 1], ids[|ids| - 1];
            var side := worth(Canonical(assets[last].currency), assets[last].value - After(logs, last, day));
            var present, owed := assets[last].created <= day, IsLiability(assets[last].kind);
            && PointSum(AssetRows(assets, ids), logs, day, false, worth)
               == PointSum(AssetRows(assets, front), logs, day, false, worth) + (if present && !owed then side else 0.0)
            && PointSum(AssetRows(assets, ids), logs, day, true, worth)
               == PointSum(AssetRows(assets, front), logs, day, true, worth) + (if present && owed then side else 0.0)
  {
    var rows := AssetRows(assets, ids);
    assert rows[..|rows| - 1] == AssetRows(assets, ids[..|ids| - 1]);
  }

  /** Each sample is the net worth that the audit log states for its day. */
  lemma {:induction false} TrendIsHistory(db: Tables, opening: map<int, int>, ids: seq<int>, day: int, worth: Worth)
    requires Audited(opening, db) && InOrder(db.logs) && Linear(worth)
    requires forall i :: 0 <= i < |ids| ==> ids[i] in db.assets
    ensures forall i :: 0 <= i < |ids| ==> ids[i] in opening
    ensures PointSum(AssetRows(db.assets, ids), LogRows(db.logs), day, false, worth)
            - PointSum(AssetRows(db.assets, ids), LogRows(db.logs), day, true, worth)
            == RecordedWorth(db, opening, ids, day, worth)
  {
    if ids != [] {
      TrendIsHistory(db, opening, ids[..|ids| - 1], day, worth);
      RebuiltSide(db, opening, ids[|ids| - 1], day, worth);
      OneMoreRow(db.assets, ids, LogRows(db.logs), day, worth);
    }
  }

  // ---------------------------------------------------------------------------------------
  // The summary

  /** A log joined with its asset's currency and type. */
  datatype Change = Change(delta: int, currency: Currency, kind: AssetType)

  function SideSum(assets: seq<TrendAsset>, liabilities: bool, worth: Worth): real {
    if assets == [] then 0.0
    else
      var a := assets[|assets| - 1];
      SideSum(assets[..|assets| - 1], liabilities, worth)
      + (if IsLiability(a.kind) == liabilities then worth(Canonical(a.currency), a.value) else 0.0)
  }

  function ChangeSum(changes: seq<Change>, worth: Worth): real {
    if changes == [] then 0.0
    else
      var c := changes[|changes| - 1];
      ChangeSum(changes[..|changes| - 1], worth) + Weighted(c.kind, c.currency, c.delta, worth)
  }

  /** The totals and the change in `report_asset_summary`. */
  method Summary(assets: seq<TrendAsset>, changes: seq<Change>, worth: Worth)
    returns (totalAssets: real, totalLiabs: real, change: real)
    requires Linear(worth)
    ensures totalAssets == SideSum(assets, false, worth) && totalLiabs == SideSum(assets, true, worth)
    ensures change == ChangeSum(changes, worth)
  {
    totalAssets, totalLiabs, change := 0.0, 0.0, 0.0;
    for i := 0 to |assets|
      invariant totalAssets == SideSum(assets[..i], false, worth) && totalLiabs == SideSum(assets[..i], true, worth)
    {
      assert assets[..i + 1][..i] == assets[..i];
      var v := worth(Canonical(assets[i].currency), assets[i].value);
      if IsLiability(assets[i].kind) {
        totalLiabs := totalLiabs + v;
      } else {
        totalAssets := totalAssets + v;
      }
    }
    assert assets[..|assets|] == assets;
    for i := 0 to |changes|
      invariant change == ChangeSum(changes[..i], worth)
    {
      assert changes[..i + 1][..i] == changes[..i];
      var delta := worth(Canonical(changes[i].currency), changes[i].delta);
      LinearNeg(worth, Canonical(changes[i].currency), changes[i].delta);
      if IsLiability(changes[i].kind) {
        change := change - delta;
      } else {
        change := change + delta;
      }
    }
    assert changes[..|changes|] == changes;
  }

  /** The logs of the listed assets from `from` on. */
  function ChangeRows(assets: map<int, Asset>, ids: seq<int>, logs: seq<Log>, from: int): seq<Change>
    requires forall i :: 0 <= i < |ids| ==> ids[i] in assets
  {
    if logs == [] then []
    else
      var last := logs[|logs| - 1];
      ChangeRows(assets, ids, logs[..|logs| - 1], from)
      + (if last.day >= from && last.asset in ids
         then [Change(last.delta, assets[last.asset].currency, assets[last.asset].kind)] else [])
  }

  /** The changes after `day`, asset by asset instead of log by log. */
  ghost function ChangesByAsset(assets: map<int, Asset>, ids: seq<int>, logs: seq<Log>, day: int, worth: Worth): real
    requires Listed(assets, ids)
  {
    if ids == [] then 0.0
    else
      var last := ids[|ids| - 1];
      var a := assets[last];
      ChangesByAsset(assets, ids[..|ids| - 1], logs, day, worth)
      + Weighted(a.kind, a.currency, SumAfter(logs, last, day), worth)
  }

  lemma {:induction false} WeightedAdd(kind: AssetType, currency: Currency, x: int, y: int, worth: Worth)
    requires Linear(worth)
    ensures Weighted(kind, currency, x + y, worth)
            == Weighted(kind, currency, x, worth) + Weighted(kind, currency, y, worth)
    ensures Weighted(kind, currency, 0, worth) == 0.0
  {
    LinearAdd(worth, Canonical(currency), Turn(kind, x), Turn(kind, y));
    LinearNeg(worth, Canonical(currency), 0);
  }

  lemma {:induction false} NoLogsNoChange(assets: map<int, Asset>, ids: seq<int>, day: int, worth: Worth)
    requires Listed(assets, ids) && Linear(worth)
    ensures ChangesByAsset(assets, ids, [], day, worth) == 0.0
  {
    if ids != [] {
      NoLogsNoChange(assets, ids[..|ids| - 1], day, worth);
      var a := assets[ids[|ids| - 1]];
      WeightedAdd(a.kind, a.currency, 0, 0, worth);
    }
  }

  function LogWeight(assets: map<int, Asset>, ids: seq<int>, log: Log, day: int, worth: Worth): real {
    if log.day > day && log.asset in ids && log.asset in assets
    then Weighted(assets[log.asset].kind, assets[log.asset].currency, log.delta, worth) else 0.0
  }

  /** One more log adds its weight once, to its own asset. */
  lemma {:induction false} OneMoreLog(assets: map<int, Asset>, ids: seq<int>, logs: seq<Log>, day: int, worth: Worth)
    requires Listed(assets, ids) && logs != [] && Linear(worth)
    ensures ChangesByAsset(assets, ids, logs, day, worth)
            == ChangesByAsset(assets, ids, logs[..|logs| - 1], day, worth)
               + LogWeight(assets, ids, logs[|logs| - 1], day, worth)
  {
    if ids != [] {
      var front, last, log := ids[..|ids| - 1], ids[|ids| - 1], logs[|logs| - 1];
      OneMoreLog(assets, front, logs, day, worth);
      assert log.asset in ids <==> log.asset == last || log.asset in front;
      var a := assets[last];
      WeightedAdd(a.kind, a.currency, SumAfter(logs[..|logs| - 1], last, day), log.delta, worth);
    }
  }

  lemma {:induction false} ChangesRegroup(assets: map<int, Asset>, ids: seq<int>, logs: seq<Log>, day: int,
                                          worth: Worth)
    requires Listed(assets, ids) && Linear(worth)
    ensures ChangeSum(ChangeRows(assets, ids, logs, day + 1), worth) == ChangesByAsset(assets, ids, logs, day, worth)
  {
    if logs == [] {
      NoLogsNoChange(assets, ids, day, worth);
    } else {
      ChangesRegroup(assets, ids, logs[..|logs| - 1], day, worth);
      OneMoreLog(assets, ids, logs, day, worth);
      var rows, front := ChangeRows(assets, ids, logs, day + 1), ChangeRows(assets, ids, logs[..|logs| - 1], day + 1);
      if logs[|logs| - 1].day > day && logs[|logs| - 1].asset in ids {
        assert rows[..|rows| - 1] == front;
      } else {
        assert rows == front;
      }
    }
  }

  /** The recorded worth of all listed assets, the ones created after `day` at their opening balance. */
  ghost function RecordedWorthOfAll(db: Tables, opening: map<int, int>, ids: seq<int>, day: int, worth: Worth): real
    requires forall i :: 0 <= i < |ids| ==> ids[i] in db.assets && ids[i] in opening
  {
    if ids == [] then 0.0
    else
      var last := ids[|ids| - 1];
      var a := db.assets[last];
      RecordedWorthOfAll(db, opening, ids[..|ids| - 1], day, worth)
      + Weighted(a.kind, a.currency, BalanceOn(opening[last], db.logs, last, day), worth)
  }

  function NetSum(assets: seq<TrendAsset>, worth: Worth): real {
    if assets == [] then 0.0
    else
      var a := assets[|assets| - 1];
      NetSum(assets[..|assets| - 1], worth) + Weighted(a.kind, a.currency, a.value, worth)
  }

  lemma {:induction false} SidesToNet(assets: seq<TrendAsset>, worth: Worth)
    requires Linear(worth)
    ensures SideSum(assets, false, worth) - SideSum(assets, true, worth) == NetSum(assets, worth)
  {
    if assets != [] {
      var a := assets[|assets| - 1];
      SidesToNet(assets[..|assets| - 1], worth);
      LinearNeg(worth, Canonical(a.currency), a.value);
    }
  }

  /** One asset's value, less what was posted after `day`, is its recorded balance of that day. */
  lemma {:induction false} OneAssetLessChanges(db: Tables, opening: map<int, int>, id: int, day: int, worth: Worth)
    requires Audited(opening, db) && InOrder(db.logs) && Linear(worth) && id in db.assets
    ensures var a := db.assets[id];
            Weighted(a.kind, a.currency, a.value, worth)
            == Weighted(a.kind, a.currency, SumAfter(db.logs, id, day), worth)
               + Weighted(a.kind, a.currency, BalanceOn(opening[id], db.logs, id, day), worth)
  {
    BackwardsIsHistory(opening, db.logs, id, day);
    var a := db.assets[id];
    WeightedAdd(a.kind, a.currency, SumAfter(db.logs, id, day), BalanceOn(opening[id], db.logs, id, day), worth);
  }

  lemma {:induction false} WorthLessChanges(db: Tables, opening: map<int, int>, ids: seq<int>, day: int, worth: Worth)
    requires Audited(opening, db) && InOrder(db.logs) && Linear(worth) && Listed(db.assets, ids)
    ensures forall i :: 0 <= i < |ids| ==> ids[i] in opening
    ensures NetSum(AssetRows(db.assets, ids), worth) - ChangesByAsset(db.assets, ids, db.logs, day, worth)
            == RecordedWorthOfAll(db, opening, ids, day, worth)
  {
    if ids != [] {
      var front, last := ids[..|ids| - 1], ids[|ids| - 1];
      WorthLessChanges(db, opening, front, day, worth);
      assert AssetRows(db.assets, ids)[..|AssetRows(db.assets, ids)| - 1] == AssetRows(db.assets, front);
      OneAssetLessChanges(db, opening, last, day, worth);
    }
  }

  /**
    * Net worth less the change since day `from` is the net worth that the audit log states for the day
    * before; with from = today - 30 this is the summary's prev_nw.
    */
  lemma {:induction false} SummaryAgreesWithLog(db: Tables, opening: map<int, int>, ids: seq<int>, from: int,
                                                worth: Worth)
    requires Audited(opening, db) && InOrder(db.logs) && Linear(worth) && Listed(db.assets, ids)
    ensures forall i :: 0 <= i < |ids| ==> ids[i] in opening
    ensures var rows := AssetRows(db.assets, ids);
            SideSum(rows, false, worth) - SideSum(rows, true, worth)
            - ChangeSum(ChangeRows(db.assets, ids, db.logs, from), worth)
            == RecordedWorthOfAll(db, opening, ids, from - 1, worth)
  {
    SidesToNet(AssetRows(db.assets, ids), worth);
    WorthLessChanges(db, opening, ids, from - 1, worth);
    ChangesRegroup(db.assets, ids, db.logs, from - 1, worth);
  }

  /** The recorded worth, as of `day`, of the assets created after it: no sample of that day has them. */
  ghost function LaterAssets(db: Tables, opening: map<int, int>, ids: seq<int>, day: int, worth: Worth): real
    requires forall i :: 0 <= i < |ids| ==> ids[i] in db.assets && ids[i] in opening
  {
    if ids == [] then 0.0
    else
      var last := ids[|ids| - 1];
      var a := db.assets[last];
      LaterAssets(db, opening, ids[..|ids| - 1], day, worth)
      + (if a.created > day then Weighted(a.kind, a.currency, BalanceOn(opening[last], db.logs, last, day), worth)
         else 0.0)
  }

  lemma {:induction false} AllAreEarlierOrLater(db: Tables, opening: map<int, int>, ids: seq<int>, day: int,
                                                worth: Worth)
    requires forall i :: 0 <= i < |ids| ==> ids[i] in db.assets && ids[i] in opening
    ensures RecordedWorthOfAll(db, opening, ids, day, worth)
            == RecordedWorth(db, opening, ids, day, worth) + LaterAssets(db, opening, ids, day, worth)
  {
    if ids != [] {
      AllAreEarlierOrLater(db, opening, ids[..|ids| - 1], day, worth);
    }
  }

  /**
    * The two reports agree: the summary's net worth less its change is what the trend shows for the day
    * before the window, up to the assets created since then, which only the summary counts.
    */
  lemma {:induction false} SummaryAgreesWithTrend(db: Tables, opening: map<int, int>, ids: seq<int>, from: int,
                                                  worth: Worth)
    requires Audited(opening, db) && InOrder(db.logs) && Linear(worth) && Listed(db.assets, ids)
    ensures forall i :: 0 <= i < |ids| ==> ids[i] in opening
    ensures var rows := AssetRows(db.assets, ids);
            SideSum(rows, false, worth) - SideSum(rows, true, worth)
            - ChangeSum(ChangeRows(db.assets, ids, db.logs, from), worth)
            == PointSum(rows, LogRows(db.logs), from - 1, false, worth)
               - PointSum(rows, LogRows(db.logs), from - 1, true, worth)
               + LaterAssets(db, opening, ids, from - 1, worth)
  {
    SummaryAgreesWithLog(db, opening, ids, from, worth);
    TrendIsHistory(db, opening, ids, from - 1, worth);
    AllAreEarlierOrLater(db, opening, ids, from - 1, worth);
  }

  /** At the program's own rates, with every asset older than the window, the two are the same number. */
  lemma {:induction false} ReportsAgreeAtRates(db: Tables, opening: map<int, int>, ids: seq<int>, from: int,
                                               rate: Currency -> real)
    requires Audited(opening, db) && InOrder(db.logs) && Listed(db.assets, ids)
    requires forall i :: 0 <= i < |ids| ==> db.assets[ids[i]].created < from
    ensures var rows, worth := AssetRows(db.assets, ids), AtRates(rate);
            SideSum(rows, false, worth) - SideSum(rows, true, worth)
            - ChangeSum(ChangeRows(db.assets, ids, db.logs, from), worth)
            == PointSum(rows, LogRows(db.logs), from - 1, false, worth)
               - PointSum(rows, LogRows(db.logs), from - 1, true, worth)
  {
    RatesAreLinear(rate);
    SummaryAgreesWithTrend(db, opening, ids, from, AtRates(rate));
    NoLaterAssets(db, opening, ids, from - 1, AtRates(rate));
  }

  lemma {:induction false} NoLaterAssets(db: Tables, opening: map<int, int>, ids: seq<int>, day: int, worth: Worth)
    requires forall i :: 0 <= i < |ids| ==> ids[i] in db.assets && ids[i] in opening && db.assets[ids[i]].created <= day
    ensures LaterAssets(db, opening, ids, day, worth) == 0.0
  {
    if ids != [] {
      NoLaterAssets(db, opening, ids[..|ids| - 1], day, worth);
    }
  }
}
