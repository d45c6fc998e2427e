/** Pulling the server's rows page by page into the local tables. */
module SyncPull {
  import opened Prelude
  import opened SyncRecords
  import opened SyncProtocol

  const PAGE_SIZE: nat := 500

  datatype Remote = Remote(id: int, fields: Record)

  /** The plain columns each local table stores. */
  function PlainColumns(t: Table): set<string> {
    match t
    case Accounts => {"user_id", "ledger_id", "name", "institution", "account_no", "currency", "icon", "note",
                      "sort_order", "archived", "created_at"}
    case Assets => {"user_id", "category_id", "name", "account_no", "current_value", "quantity", "cost_basis",
                    "net_value", "currency", "note", "created_at"}
    case Transactions => {"user_id", "category_id", "source_type", "transaction_type", "direction",
                          "linked_direction", "amount", "price_per_unit", "quantity", "fee", "currency",
                          "transaction_date", "note", "created_at"}
    case DailyExpenses => {"user_id", "category_id", "expense_type", "amount", "currency", "expense_date", "note",
                           "created_at"}
  }

  predicate Allowed(t: Table, c: Column) {
    c == UpdatedAt || Target(t, c).Some? || (c.Plain? && c.name in PlainColumns(t))
  }

  /** The columns of the local tables as they are created, besides the id and the mark of deletion. */
  function SchemaColumns(t: Table): set<Column> {
    match t
    case Accounts => {Plain("user_id"), Plain("ledger_id"), Plain("name"), Plain("institution"), Plain("account_no"),
                      Plain("currency"), Plain("icon"), Plain("note"), Plain("sort_order"), Plain("archived"),
                      Plain("created_at"), UpdatedAt}
    case Assets => {Plain("user_id"), Plain("category_id"), Plain("name"), Plain("account_no"), AccountId,
                    Plain("current_value"), Plain("quantity"), Plain("cost_basis"), Plain("net_value"),
                    Plain("currency"), Plain("note"), Plain("created_at"), UpdatedAt}
    case Transactions => {Plain("user_id"), AssetId, LinkedAssetId, Plain("category_id"), Plain("source_type"),
                          Plain("transaction_type"), Plain("direction"), Plain("linked_direction"), Plain("amount"),
                          Plain("price_per_unit"), Plain("quantity"), Plain("fee"), Plain("currency"),
                          Plain("transaction_date"), Plain("note"), Plain("created_at"), UpdatedAt}
    case DailyExpenses => {Plain("user_id"), Plain("category_id"), AssetId, Plain("expense_type"), Plain("amount"),
                           Plain("currency"), Plain("expense_date"), Plain("note"), Plain("created_at"), UpdatedAt}
  }

  /** A pull stores exactly the columns the tables have: none of a server row's is lost, and none is unknown. */
  lemma {:induction false} AllowedIsTheSchema(t: Table, c: Column)
    ensures Allowed(t, c) <==> c in SchemaColumns(t)
  {
  }

  /** The columns of a server row that are stored. */
  function Kept(t: Table, fields: Record): Record {
    map c | c in fields && Allowed(t, c) :: fields[c]
  }

  function MergeRemote(rows: Rows, t: Table, remote: Remote): Rows {
    MergeRow(rows, Key(t, remote.id), Kept(t, remote.fields))
  }

  function MergeAll(rows: Rows, t: Table, remotes: seq<Remote>): Rows {
    if remotes == [] then rows
    else MergeRemote(MergeAll(rows, t, remotes[..|remotes| - 1]), t, remotes[|remotes| - 1])
  }

  ghost predicate DistinctIds(remotes: seq<Remote>) {
    forall i, j :: 0 <= i < j < |remotes| ==> remotes[i].id != remotes[j].id
  }

  /** What the server answers for a page of a fixed snapshot. */
  function PageOf(snapshot: seq<Remote>, page: nat): seq<Remote>
    requires page >= 1
  {
    var lo, hi := (page - 1) * PAGE_SIZE, page * PAGE_SIZE;
    if lo >= |snapshot| then [] else if hi >= |snapshot| then snapshot[lo..] else snapshot[lo..hi]
  }

  // ---------------------------------------------------------------------------------------
  // Properties of the merge

  lemma {:induction false} MergeRowTwice(rows: Rows, k: Key, rec: Record)
    ensures MergeRow(MergeRow(rows, k, rec), k, rec) == MergeRow(rows, k, rec)
  {
    var once := MergeRow(rows, k, rec)[k].values;
    assert once + rec == once || !(k !in rows || UpdatedAtOf(rec) >= UpdatedAtOf(rows[k].values));
  }

  ghost predicate Agree(a: Rows, b: Rows, k: Key) {
    (k in a <==> k in b) && (k in a ==> a[k] == b[k])
  }

  lemma {:induction false} PullLeavesUnlisted(rows: Rows, t: Table, remotes: seq<Remote>, k: Key)
    requires forall i :: 0 <= i < |remotes| ==> Key(t, remotes[i].id) != k
    ensures Agree(MergeAll(rows, t, remotes), rows, k)
  {
    if remotes != [] {
      PullLeavesUnlisted(rows, t, remotes[..|remotes| - 1], k);
    }
  }

  /** Each row of a snapshot decides one key, against that key's own local row. */
  lemma {:induction false} PullDecidesListed(rows: Rows, t: Table, remotes: seq<Remote>, i: nat)
    requires DistinctIds(remotes) && i < |remotes|
    ensures Agree(MergeAll(rows, t, remotes), MergeRemote(rows, t, remotes[i]), Key(t, remotes[i].id))
  {
    var n, k := |remotes| - 1, Key(t, remotes[i].id);
    var front := remotes[..n];
    if i == n {
      PullLeavesUnlisted(rows, t, front, k);
    } else {
      PullDecidesListed(rows, t, front, i);
    }
  }

  lemma {:induction false} PullNeverLowers(rows: Rows, t: Table, remotes: seq<Remote>, k: Key)
    requires k in rows
    ensures k in MergeAll(rows, t, remotes)
    ensures UpdatedAtOf(MergeAll(rows, t, remotes)[k].values) >= UpdatedAtOf(rows[k].values)
  {
    if remotes != [] {
      PullNeverLowers(rows, t, remotes[..|remotes| - 1], k);
    }
  }

  lemma {:induction false} TableIsIdempotent(rows: Rows, t: Table, remotes: seq<Remote>)
    requires DistinctIds(remotes)
    ensures MergeAll(MergeAll(rows, t, remotes), t, remotes) == MergeAll(rows, t, remotes)
  {
    var once := MergeAll(rows, t, remotes);
    var twice := MergeAll(once, t, remotes);
    forall k | k in once || k in twice
      ensures Agree(twice, once, k)
    {
      if i :| 0 <= i < |remotes| && Key(t, remotes[i].id) == k {
        PullDecidesListed(rows, t, remotes, i);
        PullDecidesListed(once, t, remotes, i);
        MergeRowTwice(rows, k, Kept(t, remotes[i].fields));
      } else {
        PullLeavesUnlisted(once, t, remotes, k);
      }
    }
  }

  /** After a pull every listed row is stored, in all its columns, unless the local row is newer. */
  lemma {:induction false} ServerWins(rows: Rows, t: Table, remotes: seq<Remote>, i: nat)
    requires DistinctIds(remotes) && i < |remotes|
    ensures var k, rec := Key(t, remotes[i].id), Kept(t, remotes[i].fields);
            var merged := MergeAll(rows, t, remotes);
            && k in merged
            && (if k in rows && UpdatedAtOf(rows[k].values) > UpdatedAtOf(rec) then merged[k] == rows[k]
                else !merged[k].deleted
                     && forall c :: c in rec ==> c in merged[k].values && merged[k].values[c] == rec[c])
  {
    PullDecidesListed(rows, t, remotes, i);
  }

  lemma {:induction false} MergeAllConcat(rows: Rows, t: Table, a: seq<Remote>, b: seq<Remote>)
    ensures MergeAll(rows, t, a + b) == MergeAll(MergeAll(rows, t, a), t, b)
  {
    if b == [] {
      assert a + b == a;
    } else {
      assert (a + b)[..|a + b| - 1] == a + b[..|b| - 1];
      MergeAllConcat(rows, t, a, b[..|b| - 1]);
    }
  }

  // ---------------------------------------------------------------------------------------
  // The loop over the pages

  const TABLES: seq<Table> := [Accounts, DailyExpenses, Transactions, Assets]

  /** What arrives of a table when the request for page `failing` is the first to fail. */
  function Arrived(snapshot: seq<Remote>, failing: Option<nat>): seq<Remote> {
    match failing
    case None => snapshot
    case Some(page) =>
      var done := if page <= 1 then 0 else (page - 1) * PAGE_SIZE;
      if done >= |snapshot| then snapshot else snapshot[..done]
  }

  /** When the failing page lies behind the snapshot, all of it arrives. */
  lemma {:induction false} ArrivesInFull(snapshot: seq<Remote>, failing: Option<nat>, pages: nat)
    requires pages * PAGE_SIZE >= |snapshot| && (failing.Some? ==> failing.value > pages)
    ensures Arrived(snapshot, failing) == snapshot
  {
  }

  /** A failing request costs what comes behind the full pages of 500 rows before it. */
  lemma {:induction false} FullPagesArrive(snapshot: seq<Remote>, page: nat)
    requires page >= 1
    ensures var seen := 500 * (page - 1);
            Arrived(snapshot, Some(page)) == if seen <= |snapshot| then snapshot[..seen] else snapshot
    ensures PageOf(snapshot, page)
            == if 500 * page <= |snapshot| then snapshot[500 * (page - 1)..500 * page]
               else if 500 * (page - 1) <= |snapshot| then snapshot[500 * (page - 1)..]
               else []
  {
    if 500 * (page - 1) == |snapshot| {
      assert snapshot[|snapshot|..] == [] && snapshot[..|snapshot|] == snapshot;
    }
    if 500 * page == |snapshot| {
      assert snapshot[500 * (page - 1)..500 * page] == snapshot[500 * (page - 1)..];
    }
  }

  function ArrivedOf(t: Table, snapshots: map<Table, seq<Remote>>, failing: map<Table, nat>): seq<Remote>
    requires t in snapshots
  {
    Arrived(snapshots[t], if t in failing then Some(failing[t]) else None)
  }

  function PullTables(rows: Rows, tables: seq<Table>, snapshots: map<Table, seq<Remote>>,
                      failing: map<Table, nat>): Rows
    requires forall t :: t in tables ==> t in snapshots
  {
    if tables == [] then rows
    else
      var t := tables[|tables| - 1];
      MergeAll(PullTables(rows, tables[..|tables| - 1], snapshots, failing), t, ArrivedOf(t, snapshots, failing))
  }

  /** What a key becomes depends only on what it was. */
  lemma {:induction false} MergeAllAgrees(a: Rows, b: Rows, t: Table, remotes: seq<Remote>, k: Key)
    requires Agree(a, b, k)
    ensures Agree(MergeAll(a, t, remotes), MergeAll(b, t, remotes), k)
  {
    if remotes != [] {
      MergeAllAgrees(a, b, t, remotes[..|remotes| - 1], k);
    }
  }

  /** The pull of one table is not disturbed by those of the others. */
  lemma {:induction false} TablesAreSeparate(rows: Rows, tables: seq<Table>, snapshots: map<Table, seq<Remote>>,
                                             failing: map<Table, nat>, k: Key)
    requires forall t :: t in tables ==> t in snapshots
    requires forall i, j :: 0 <= i < j < |tables| ==> tables[i] != tables[j]
    ensures Agree(PullTables(rows, tables, snapshots, failing),
                  if k.table in tables then MergeAll(rows, k.table, ArrivedOf(k.table, snapshots, failing))
                  else rows, k)
  {
    if tables != [] {
      var n, t := |tables| - 1, tables[|tables| - 1];
      assert forall u :: u in tables <==> u in tables[..n] || u == t;
      TablesAreSeparate(rows, tables[..n], snapshots, failing, k);
      var before, rs := PullTables(rows, tables[..n], snapshots, failing), ArrivedOf(t, snapshots, failing);
      if t == k.table {
        MergeAllAgrees(before, rows, t, rs, k);
      } else {
        PullLeavesUnlisted(before, t, rs, k);
      }
    }
  }

  /** Pulling again what the server answered, failing pages included, changes nothing in any table. */
  lemma {:induction false} PullIsIdempotent(rows: Rows, snapshots: map<Table, seq<Remote>>, failing: map<Table, nat>)
    requires forall t: Table :: t in snapshots && DistinctIds(snapshots[t])
    ensures var once := PullTables(rows, TABLES, snapshots, failing);
            PullTables(once, TABLES, snapshots, failing) == once
  {
    var once := PullTables(rows, TABLES, snapshots, failing);
    var twice := PullTables(once, TABLES, snapshots, failing);
    forall k: Key
      ensures Agree(twice, once, k)
    {
      var t, rs := k.table, ArrivedOf(k.table, snapshots, failing);
      assert DistinctIds(snapshots[t]);
      TablesAreSeparate(rows, TABLES, snapshots, failing, k);
      TablesAreSeparate(once, TABLES, snapshots, failing, k);
      if t in TABLES {
        MergeAllAgrees(once, MergeAll(rows, t, rs), t, rs, k);
        TableIsIdempotent(rows, t, rs);
      }
    }
    assert forall k :: k in once <==> k in twice by {
      forall k: Key
        ensures k in once <==> k in twice
      {
        assert Agree(twice, once, k);
      }
    }
    forall k | k in once
      ensures once[k] == twice[k]
    {
      assert Agree(twice, once, k);
    }
  }

  /** Row `k` is there and alive, has every column of `rec` and keeps its others; the other rows are as before. */
  ghost predicate Stores(was: Rows, now: Rows, k: Key, rec: Record) {
    && k in now && !now[k].deleted
    && (forall c :: c in rec ==> c in now[k].values && now[k].values[c] == rec[c])
    && (forall c :: c !in rec ==> (c in now[k].values <==> k in was && c in was[k].values))
    && (forall c :: c !in rec && c in now[k].values ==> now[k].values[c] == was[k].values[c])
    && (forall j :: j != k ==> Agree(now, was, j))
  }

  /** Which settles what is stored; and it is what the merge of a row that is not older does. */
  lemma {:induction false} StoresIsMerge(was: Rows, now: Rows, k: Key, rec: Record)
    requires Stores(was, now, k, rec)
    requires k in was ==> UpdatedAtOf(rec) >= UpdatedAtOf(was[k].values)
    ensures now == MergeRow(was, k, rec)
  {
    var merged := MergeRow(was, k, rec);
    assert now[k].values == merged[k].values;
    forall j: Key
      ensures j in now <==> j in merged
      ensures j in now ==> now[j] == merged[j]
    {
      assert j != k ==> Agree(now, was, j);
    }
  }

  class Puller {
    var rows: Rows
    var queue: seq<Item>

    constructor (s: Store)
      ensures rows == s.rows && queue == s.queue
    {
      rows, queue := s.rows, s.queue;
    }

    method UpsertLocal(t: Table, remote: Remote)
      modifies this`rows
      ensures Stores(old(rows), rows, Key(t, remote.id), Kept(t, remote.fields))
    {
      var k, rec := Key(t, remote.id), Kept(t, remote.fields);
      rows := rows[k := Row(if k in rows then rows[k].values + rec else rec, false)];
    }

    method MergePage(t: Table, page: seq<Remote>)
      modifies this`rows
      ensures rows == MergeAll(old(rows), t, page)
    {
      var n := 0;
      while n < |page|
        invariant 0 <= n <= |page| && rows == MergeAll(old(rows), t, page[..n])
      {
        var k := Key(t, page[n].id);
        var localUpdated := if k in rows then UpdatedAtOf(rows[k].values) else 0;
        var remoteUpdated := UpdatedAtOf(page[n].fields);
        assert page[..n + 1][..n] == page[..n];
        if k !in rows || remoteUpdated >= localUpdated {
          ghost var before := rows;
          UpsertLocal(t, page[n]);
          StoresIsMerge(before, rows, k, Kept(t, page[n].fields));
        }
        n := n + 1;
      }
      assert page[..n] == page;
    }

    /**
      * Pages of a fixed snapshot, read until a short page or the announced total; the request for
      * page `failing` throws and ends the table's pull.
      */
    method PullTable(t: Table, snapshot: seq<Remote>, announceTotal: bool, failing: Option<nat>)
      requires failing.Some? ==> failing.value >= 1
      modifies this`rows
      ensures rows == MergeAll(old(rows), t, Arrived(snapshot, failing))
    {
      var page := 1;
      ghost var was := rows;
      assert snapshot[..0] == [];
      while true
        invariant page >= 1 && (page - 1) * PAGE_SIZE <= |snapshot|
        invariant failing.Some? ==> page <= failing.value
        invariant rows == MergeAll(was, t, snapshot[..(page - 1) * PAGE_SIZE])
        decreases |snapshot| - (page - 1) * PAGE_SIZE
      {
        ghost var seen := (page - 1) * PAGE_SIZE;
        if failing == Some(page) {
          assert seen == |snapshot| ==> snapshot[..seen] == snapshot;
          return;
        }
        var remotes := PageOf(snapshot, page);
        if |remotes| == 0 {
          assert snapshot[..seen] == snapshot;
          ArrivesInFull(snapshot, failing, page);
          return;
        }
        MergePage(t, remotes);
        MergeAllConcat(was, t, snapshot[..seen], remotes);
        assert snapshot[..seen] + remotes == snapshot[..seen + |remotes|];
        if |remotes| < PAGE_SIZE || (announceTotal && page * PAGE_SIZE >= |snapshot|) {
          assert snapshot[..seen + |remotes|] == snapshot;
          ArrivesInFull(snapshot, failing, page);
          return;
        }
        page := page + 1;
      }
    }

    /** All four tables; a table whose pull fails keeps the pages before the failure, and the others go on. */
    method PullRemote(snapshots: map<Table, seq<Remote>>, announceTotal: bool, failing: map<Table, nat>)
      requires forall t: Table :: t in snapshots
      requires forall t :: t in failing ==> failing[t] >= 1
      modifies this`rows
      ensures rows == PullTables(old(rows), TABLES, snapshots, failing)
    {
      for n := 0 to |TABLES|
        invariant rows == PullTables(old(rows), TABLES[..n], snapshots, failing)
      {
        var t := TABLES[n];
        assert TABLES[..n + 1][..n] == TABLES[..n];
        PullTable(t, snapshots[t], announceTotal, if t in failing then Some(failing[t]) else None);
      }
      assert TABLES[..|TABLES|] == TABLES;
    }
  }
}
