/**
  * The local database of the mobile client and the queue of unsent writes, as values.
  *
  * The four business tables are one map from (table, id) to row. A queue item's id is its
  * position: the queue column is AUTOINCREMENT and rows are never deleted from it.
  */
module SyncRecords {
  import opened Prelude

  datatype Table = Accounts | Assets | Transactions | DailyExpenses
  datatype Column = AccountId | AssetId | LinkedAssetId | UpdatedAt | Plain(name: string)
  datatype Value = Null | Num(n: int) | Text(s: string)
  type Record = map<Column, Value>
  datatype Key = Key(table: Table, id: int)
  datatype Row = Row(values: Record, deleted: bool)
  type Rows = map<Key, Row>

  datatype Op = Create | Update | Delete
  datatype Item = Item(table: Table, recordId: int, op: Op, payload: Record, synced: bool, conflict: bool) {
    function Subject(): Key { Key(table, recordId) }
  }
  datatype Store = Store(rows: Rows, queue: seq<Item>)

  /** A client-side write that could not reach the server. */
  datatype Write = Write(table: Table, op: Op, recordId: int, payload: Record) {
    function Subject(): Key { Key(table, recordId) }
  }

  /** What an awaited call ended in; `Ok(0)` is an answer that carries no usable id. */
  datatype Response = Ok(newId: int) | AuthError | Business | Network

  // ---------------------------------------------------------------------------------------
  // Foreign keys

  /** The table a column of `t` refers to, when it is a foreign key. */
  function Target(t: Table, c: Column): Option<Table> {
    match c
    case AccountId => if t == Assets then Some(Accounts) else None
    case AssetId => if t == DailyExpenses || t == Transactions then Some(Assets) else None
    case LinkedAssetId => if t == Transactions then Some(Assets) else None
    case _ => None
  }

  /** Column `c` of a record of table `t` holds the id of row `k`. */
  predicate PointsAt(t: Table, rec: Record, c: Column, k: Key) {
    Target(t, c) == Some(k.table) && c in rec && rec[c] == Num(k.id)
  }

  predicate Mentions(t: Table, rec: Record, k: Key) {
    PointsAt(t, rec, AccountId, k) || PointsAt(t, rec, AssetId, k) || PointsAt(t, rec, LinkedAssetId, k)
  }

  /** Server ids are small row numbers; offline ids are millisecond timestamps. */
  const PLACEHOLDER_FLOOR := 1_000_000_000_000

  predicate IsPlaceholder(k: Key) { k.id >= PLACEHOLDER_FLOOR }

  // ---------------------------------------------------------------------------------------
  // Renaming of ids

  type Renaming = map<Key, int>

  function Rename(ren: Renaming, k: Key): Key {
    if k in ren then Key(k.table, ren[k]) else k
  }

  function RenameValue(ren: Renaming, t: Table, c: Column, v: Value): Value {
    match (Target(t, c), v)
    case (Some(target), Num(n)) => Num(Rename(ren, Key(target, n)).id)
    case _ => v
  }

  function RenameRecord(ren: Renaming, t: Table, rec: Record): Record {
    map c | c in rec :: RenameValue(ren, t, c, rec[c])
  }

  // ---------------------------------------------------------------------------------------
  // Local writes

  function WriteRow(rows: Rows, w: Write): Rows {
    var k := w.Subject();
    if w.op == Delete then
      if k in rows then rows[k := rows[k].(deleted := true)] else rows
    else if w.payload == map[] then
      rows
    else
      rows[k := Row(if k in rows then rows[k].values + w.payload else w.payload, false)]
  }

  function Enqueue(queue: seq<Item>, w: Write): seq<Item> {
    queue + [Item(w.table, w.recordId, w.op, w.payload, false, false)]
  }

  function WriteLocal(s: Store, w: Write): Store {
    Store(WriteRow(s.rows, w), Enqueue(s.queue, w))
  }

  // ---------------------------------------------------------------------------------------
  // Acknowledgements

  function MarkSynced(queue: seq<Item>, i: nat): seq<Item>
    requires i < |queue|
  {
    queue[i := queue[i].(synced := true)]
  }

  function MarkConflict(queue: seq<Item>, i: nat): seq<Item>
    requires i < |queue|
  {
    queue[i := queue[i].(conflict := true)]
  }

  /** The row `k` takes the id `newId`; every foreign key to it follows. */
  function RemapRows(rows: Rows, k: Key, newId: int): Rows
    requires Key(k.table, newId) !in rows || k !in rows
  {
    var ren: Renaming := map[k := newId];
    var moved := if k in rows then (rows - {k})[Key(k.table, newId) := rows[k]] else rows;
    map j | j in moved :: Row(RenameRecord(ren, j.table, moved[j].values), moved[j].deleted)
  }

  /** Items queued after position `after` that act on `k` or refer to it take the new id. */
  function RemapItem(item: Item, k: Key, newId: int): Item {
    item.(recordId := if item.Subject() == k then newId else item.recordId,
          payload := if item.synced then item.payload else RenameRecord(map[k := newId], item.table, item.payload))
  }

  function RemapQueue(queue: seq<Item>, k: Key, newId: int, after: nat): (r: seq<Item>)
    ensures |r| == |queue|
  {
    seq(|queue|, i requires 0 <= i < |queue| => if i <= after then queue[i] else RemapItem(queue[i], k, newId))
  }

  /** Renaming the row fails when its new id is taken: SQLite rejects the UPDATE. */
  predicate IdTaken(rows: Rows, k: Key, newId: int) {
    k in rows && Key(k.table, newId) in rows
  }

  /** What the answer to the call made for `item`, queued at position `i`, does to the store. */
  function Answer(s: Store, i: nat, item: Item, r: Response): Store
    requires i < |s.queue|
  {
    match r
    case Ok(newId) =>
      if item.op == Create && newId != 0 && newId != item.recordId then
        if IdTaken(s.rows, item.Subject(), newId) then s
        else Store(RemapRows(s.rows, item.Subject(), newId),
                   MarkSynced(RemapQueue(s.queue, item.Subject(), newId, i), i))
      else s.(queue := MarkSynced(s.queue, i))
    case AuthError => s
    case Business => s.(queue := MarkConflict(s.queue, i))
    case Network => s
  }

  /** Positions of the items still to be sent, in queue order. */
  function Unsynced(queue: seq<Item>): (r: seq<nat>)
    ensures forall x :: x in r <==> 0 <= x < |queue| && !queue[x].synced
    ensures forall a :: 0 <= a < |r| ==> r[a] < |queue| && !queue[r[a]].synced
    ensures forall a, b :: 0 <= a < b < |r| ==> r[a] < r[b]
  {
    if queue == [] then []
    else
      var n := |queue| - 1;
      var front := Unsynced(queue[..n]);
      assert forall a :: 0 <= a < |front| ==> front[a] in front;
      assert forall x :: 0 <= x < n ==> queue[..n][x] == queue[x];
      if queue[n].synced then front else front + [n]
  }
}
