/** What the protocol's results say of each foreign key column by name. */
module SyncColumns {
  import opened SyncRecords
  import opened SyncProtocol

  /** Column `c` holds the id `n`. */
  predicate Holds(rec: Record, c: Column, n: int) { c in rec && rec[c] == Num(n) }

  // ---------------------------------------------------------------------------------------
  // What a write does

  /**
    * An offline write touches no row but its own. A delete marks that row, if it is there; any other write with
    * something in it makes it alive, with the written columns laid over those it had. The write is queued last,
    * unsent and without a conflict.
    */
  lemma {:induction false} WriteByColumn(s: Store, w: Write)
    ensures var s', k := WriteLocal(s, w), w.Subject();
            && s'.queue == s.queue + [Item(w.table, w.recordId, w.op, w.payload, false, false)]
            && (forall j :: j != k ==> (j in s'.rows <==> j in s.rows) && (j in s.rows ==> s'.rows[j] == s.rows[j]))
            && (w.op == Delete ==>
                  (k in s'.rows <==> k in s.rows) && (k in s.rows ==> s'.rows[k] == Row(s.rows[k].values, true)))
            && (w.op != Delete && w.payload == map[] ==> s'.rows == s.rows)
            && (w.op != Delete && w.payload != map[] ==>
                  && k in s'.rows && !s'.rows[k].deleted
                  && (forall c :: c in w.payload ==>
                        c in s'.rows[k].values && s'.rows[k].values[c] == w.payload[c])
                  && (forall c :: c !in w.payload ==>
                        (c in s'.rows[k].values <==> k in s.rows && c in s.rows[k].values)
                        && (k in s.rows && c in s.rows[k].values ==> s'.rows[k].values[c] == s.rows[k].values[c])))
  {
  }

  /** A refusal by the server flags the item and nothing else; without an answer everything stays. */
  lemma {:induction false} FailureByItem(s: Store, i: nat, item: Item)
    requires i < |s.queue|
    ensures var s' := Answer(s, i, item, Business);
            && s'.rows == s.rows && |s'.queue| == |s.queue| && s'.queue[i] == s.queue[i].(conflict := true)
            && forall j :: 0 <= j < |s.queue| && j != i ==> s'.queue[j] == s.queue[j]
    ensures Answer(s, i, item, Network) == s && Answer(s, i, item, AuthError) == s
  {
  }

  /** What the server does with a call it accepts. */
  lemma {:induction false} ServerByItem(rows: map<Key, Record>, item: Item, newId: int, j: Key)
    ensures var rows' := ServerApply(rows, item, newId);
            && (item.op == Create ==>
                  var k := Key(item.table, newId);
                  k in rows' && rows'[k] == item.payload
                  && (j != k ==> (j in rows' <==> j in rows) && (j in rows ==> rows'[j] == rows[j])))
            && (item.op == Update ==>
                  (j in rows' <==> j in rows)
                  && (j in rows ==> rows'[j] == if j == item.Subject() then rows[j] + item.payload else rows[j]))
            && (item.op == Delete ==>
                  (j in rows' <==> j in rows && j != item.Subject()) && (j in rows' ==> rows'[j] == rows[j]))
  {
  }

  /** A row without a time counts as the oldest there is. */
  lemma {:induction false} NoTimeIsOldest(rows: Rows, k: Key, rec: Record)
    requires k in rows && UpdatedAt !in rec
    ensures UpdatedAt !in rows[k].values ==> MergeRow(rows, k, rec) == rows[k := Row(rows[k].values + rec, false)]
    ensures Holds(rows[k].values, UpdatedAt, 1) ==> MergeRow(rows, k, rec) == rows
  {
  }

  // ---------------------------------------------------------------------------------------
  // No stale id in any column

  /** The record speaks of no asset by the id `n`. */
  predicate FreeOfAsset(t: Table, rec: Record, n: int) {
    && (t == Transactions ==> !Holds(rec, AssetId, n) && !Holds(rec, LinkedAssetId, n))
    && (t == DailyExpenses ==> !Holds(rec, AssetId, n))
  }

  /** Nor of an account. */
  predicate FreeOfAccount(t: Table, rec: Record, n: int) {
    t == Assets ==> !Holds(rec, AccountId, n)
  }

  /**
    * At the end of any run: once the create of an asset is acknowledged, its placeholder is in no asset_id or
    * linked_asset_id of a transaction and in no asset_id of an expense, neither in the local rows nor in what
    * is still to be sent.
    */
  lemma {:induction false} NoStaleAssetId(st: State, es: seq<Event>, n: int)
    requires Inv(st) && IsRun(st, es) && n >= 1_000_000_000_000
    requires !Pending(Run(st, es).store.queue, Key(Assets, n))
    ensures var s := Run(st, es).store;
            && Key(Assets, n) !in s.rows
            && (forall j :: j in s.rows ==> FreeOfAsset(j.table, s.rows[j].values, n))
            && (forall i :: 0 <= i < |s.queue| && !s.queue[i].synced ==>
                  FreeOfAsset(s.queue[i].table, s.queue[i].payload, n))
  {
    NoStalePlaceholder(st, es, Key(Assets, n));
  }

  /** And that of an account is in no account_id of an asset. */
  lemma {:induction false} NoStaleAccountId(st: State, es: seq<Event>, n: int)
    requires Inv(st) && IsRun(st, es) && n >= 1_000_000_000_000
    requires !Pending(Run(st, es).store.queue, Key(Accounts, n))
    ensures var s := Run(st, es).store;
            && Key(Accounts, n) !in s.rows
            && (forall j :: j in s.rows ==> FreeOfAccount(j.table, s.rows[j].values, n))
            && (forall i :: 0 <= i < |s.queue| && !s.queue[i].synced ==>
                  FreeOfAccount(s.queue[i].table, s.queue[i].payload, n))
  {
    NoStalePlaceholder(st, es, Key(Accounts, n));
  }

  // ---------------------------------------------------------------------------------------
  // What an acknowledgement does to a record

  /** The new record has the new id in exactly the columns `cs` that held the old one, and else what it had. */
  ghost predicate Renumbered(rec: Record, rec': Record, cs: set<Column>, n: int, newId: int) {
    && rec'.Keys == rec.Keys
    && forall c :: c in rec ==> rec'[c] == if c in cs && rec[c] == Num(n) then Num(newId) else rec[c]
  }

  /** The columns of a record of table `t` that an acknowledged create in table `created` renumbers. */
  ghost predicate RecordFollows(created: Table, t: Table, rec: Record, rec': Record, n: int, newId: int) {
    && (created == Assets && t == Transactions ==> Renumbered(rec, rec', {AssetId, LinkedAssetId}, n, newId))
    && (created == Assets && t == DailyExpenses ==> Renumbered(rec, rec', {AssetId}, n, newId))
    && (created == Assets && t != Transactions && t != DailyExpenses ==> rec' == rec)
    && (created == Accounts && t == Assets ==> Renumbered(rec, rec', {AccountId}, n, newId))
    && (created == Accounts && t != Assets ==> rec' == rec)
    && (created == Transactions || created == DailyExpenses ==> rec' == rec)
  }

  lemma {:induction false} RenamedFollows(k: Key, t: Table, rec: Record, newId: int)
    ensures RecordFollows(k.table, t, rec, RenameRecord(map[k := newId], t, rec), k.id, newId)
  {
    var rec' := RenameRecord(map[k := newId], t, rec);
    assert k.table != Assets && k.table != Accounts ==> rec' == rec;
  }

  /** The key of a row after the row `k` took the id `newId`. */
  function KeyAfter(j: Key, k: Key, newId: int): Key { if j == k then Key(k.table, newId) else j }

  /** All rows are there under their keys, deleted or not as before, and their columns follow. */
  ghost predicate RowsFollow(rows: Rows, rows': Rows, k: Key, newId: int) {
    && (forall j' :: j' in rows' <==> exists j :: j in rows && KeyAfter(j, k, newId) == j')
    && (forall j :: j in rows ==>
          var r, r' := rows[j], rows'[KeyAfter(j, k, newId)];
          r'.deleted == r.deleted && RecordFollows(k.table, j.table, r.values, r'.values, k.id, newId))
  }

  /** The acknowledged item is synced; what comes after it and is unsent follows; nothing else changes. */
  ghost predicate QueueFollows(queue: seq<Item>, queue': seq<Item>, i: nat, newId: int)
    requires i < |queue|
  {
    var k := queue[i].Subject();
    && |queue'| == |queue| && queue'[i] == queue[i].(synced := true)
    && (forall j :: 0 <= j < i ==> queue'[j] == queue[j])
    && (forall j :: i < j < |queue| ==>
          var it, it' := queue[j], queue'[j];
          && it' == it.(recordId := it'.recordId, payload := it'.payload)
          && it'.recordId == (if it.table == k.table && it.recordId == k.id then newId else it.recordId)
          && (it.synced ==> it'.payload == it.payload)
          && (!it.synced ==> RecordFollows(k.table, it.table, it.payload, it'.payload, k.id, newId)))
  }

  lemma {:induction false} AckRowsFollow(rows: Rows, k: Key, newId: int)
    requires k in rows && Key(k.table, newId) !in rows
    ensures RowsFollow(rows, RemapRows(rows, k, newId), k, newId)
  {
    RemapRowsOrigin(rows, k, newId);
    forall j | j in rows
      ensures RecordFollows(k.table, j.table, rows[j].values,
                            RenameRecord(map[k := newId], j.table, rows[j].values), k.id, newId)
    {
      RenamedFollows(k, j.table, rows[j].values, newId);
    }
    var rows' := RemapRows(rows, k, newId);
    forall j' | j' in rows'
      ensures exists j :: j in rows && KeyAfter(j, k, newId) == j'
    {
      var j := if j' == Key(k.table, newId) then k else j';
      assert j in rows && KeyAfter(j, k, newId) == j';
    }
  }

  lemma {:induction false} AckQueueFollows(queue: seq<Item>, i: nat, newId: int)
    requires i < |queue|
    ensures QueueFollows(queue, MarkSynced(RemapQueue(queue, queue[i].Subject(), newId, i), i), i, newId)
  {
    AckQueueOrigin(queue, i, newId);
    forall j | i < j < |queue|
      ensures RecordFollows(queue[i].table, queue[j].table, queue[j].payload,
                            RenameRecord(map[queue[i].Subject() := newId], queue[j].table, queue[j].payload),
                            queue[i].recordId, newId)
    {
      RenamedFollows(queue[i].Subject(), queue[j].table, queue[j].payload, newId);
    }
  }

  lemma {:induction false} AnswerByColumn(s: Store, i: nat, newId: int)
    requires i < |s.queue| && s.queue[i].op == Create && newId != 0 && newId != s.queue[i].recordId
    requires s.queue[i].Subject() in s.rows && Key(s.queue[i].table, newId) !in s.rows
    ensures var s' := Answer(s, i, s.queue[i], Ok(newId));
            && RowsFollow(s.rows, s'.rows, s.queue[i].Subject(), newId)
            && QueueFollows(s.queue, s'.queue, i, newId)
  {
    AckRowsFollow(s.rows, s.queue[i].Subject(), newId);
    AckQueueFollows(s.queue, i, newId);
  }

  lemma {:induction false} FreshIsFree(st: State, newId: int)
    requires Inv(st) && st.pass.Awaiting? && st.pass.item.op == Create
    requires FreshId(st.server, st.pass.item.table, newId)
    ensures st.pass.item.Subject() in st.store.rows && Key(st.pass.item.table, newId) !in st.store.rows
    ensures newId != 0 && newId != st.pass.item.recordId
  {
    assert CreatesAt(st.store.queue, st.pass.i, st.pass.item.Subject());
  }

  lemma {:induction false} StepIsAnswer(st: State, r: Response)
    requires Inv(st) && st.pass.Awaiting?
    ensures Step(st, Answered(r)).store == Answer(st.store, st.pass.i, st.store.queue[st.pass.i], r)
  {
  }

  /**
    * When the awaited create is answered with a new id: exactly the columns asset_id and linked_asset_id of
    * transactions and asset_id of expenses follow an asset, and account_id of assets follows an account, in
    * local rows and in what is still to be sent; every other column keeps its value.
    */
  lemma {:induction false} AckByColumn(st: State, newId: int)
    requires Inv(st) && st.pass.Awaiting? && st.pass.item.op == Create
    requires FreshId(st.server, st.pass.item.table, newId)
    ensures var s, s' := st.store, Step(st, Answered(Ok(newId))).store;
            && RowsFollow(s.rows, s'.rows, st.pass.item.Subject(), newId)
            && QueueFollows(s.queue, s'.queue, st.pass.i, newId)
  {
    FreshIsFree(st, newId);
    StepIsAnswer(st, Ok(newId));
    AnswerByColumn(st.store, st.pass.i, newId);
  }
}
