/**
  * Pushing the queue as a state machine. User writes may fall anywhere between the steps of a
  * pass, which is where the program awaits the network.
  */
module SyncProtocol {
  import opened SyncRecords

  /** `Awaiting` keeps the item as it was read just before its call. */
  datatype Pass = Idle | Sending(todo: seq<nat>) | Awaiting(i: nat, item: Item, todo: seq<nat>)

  /** `issued` holds every key the server ever gave out. */
  datatype Server = Server(rows: map<Key, Record>, issued: set<Key>)

  datatype State = State(store: Store, pass: Pass, server: Server)

  datatype Event =
    | Wrote(w: Write)                     // an offline write by the user
    | Started                             // a push pass begins
    | Sent                                // the next item of the pass is read and sent
    | Answered(r: Response)               // its call returns
    | Lost(newId: int)                    // the server applied the call, the client saw a network error
    | Pulled(k: Key, rec: Record)         // one row of the server's list is merged

  function ServerApply(rows: map<Key, Record>, item: Item, newId: int): map<Key, Record> {
    match item.op
    case Create => rows[Key(item.table, newId) := item.payload]
    case Update => if item.Subject() in rows then rows[item.Subject() := rows[item.Subject()] + item.payload] else rows
    case Delete => rows - {item.Subject()}
  }

  function Accept(server: Server, item: Item, newId: int): Server {
    Server(ServerApply(server.rows, item, newId),
           server.issued + if item.op == Create then {Key(item.table, newId)} else {})
  }

  function UpdatedAtOf(rec: Record): int {
    if UpdatedAt in rec && rec[UpdatedAt].Num? then rec[UpdatedAt].n else 0
  }

  /** The server's row wins unless the local one is strictly newer. */
  function MergeRow(rows: Rows, k: Key, rec: Record): Rows {
    if k !in rows then rows[k := Row(rec, false)]
    else if UpdatedAtOf(rec) >= UpdatedAtOf(rows[k].values) then rows[k := Row(rows[k].values + rec, false)]
    else rows
  }

  function NextPass(todo: seq<nat>): Pass {
    if todo == [] then Idle else Sending(todo)
  }

  function Step(st: State, e: Event): State
    requires CanStep(st, e)
  {
    match e
    case Wrote(w) => st.(store := WriteLocal(st.store, w))
    case Started => st.(pass := NextPass(Unsynced(st.store.queue)))
    case Sent =>
      var i := st.pass.todo[0];
      st.(pass := Awaiting(i, st.store.queue[i], st.pass.todo[1..]))
    case Answered(r) =>
      State(Answer(st.store, st.pass.i, st.pass.item, r),
            if r == AuthError then Idle else NextPass(st.pass.todo),
            if r.Ok? then Accept(st.server, st.pass.item, r.newId) else st.server)
    case Lost(newId) =>
      State(Answer(st.store, st.pass.i, st.pass.item, Network), NextPass(st.pass.todo),
            Accept(st.server, st.pass.item, newId))
    case Pulled(k, rec) => st.(store := st.store.(rows := MergeRow(st.store.rows, k, rec)))
  }

  /** The step is one the program can take in this state. */
  predicate CanStep(st: State, e: Event) {
    match e
    case Wrote(_) => true
    case Started => st.pass.Idle?
    case Sent => st.pass.Sending? && st.pass.todo != [] && st.pass.todo[0] < |st.store.queue|
    case Answered(_) => st.pass.Awaiting? && st.pass.i < |st.store.queue|
    case Lost(_) => st.pass.Awaiting? && st.pass.i < |st.store.queue|
    case Pulled(_, _) => st.pass.Idle?
  }

  // ---------------------------------------------------------------------------------------
  // What is asked of the user interface and of the server

  /** A create takes an unused placeholder; other writes name a local row. References resolve. */
  ghost predicate WriteOk(rows: Rows, w: Write) {
    && (if w.op == Create then IsPlaceholder(w.Subject()) && w.Subject() !in rows && w.payload != map[]
        else w.Subject() in rows)
    && (forall k :: Mentions(w.table, w.payload, k) ==> k in rows)
  }

  predicate FreshId(server: Server, t: Table, newId: int) {
    newId > 0 && !IsPlaceholder(Key(t, newId)) && Key(t, newId) !in server.issued
  }

  /** A row listed by the server speaks of server ids only. */
  ghost predicate PullOk(server: Server, k: Key, rec: Record) {
    && k in server.issued && !IsPlaceholder(k)
    && (forall m :: Mentions(k.table, rec, m) ==> m in server.issued && !IsPlaceholder(m))
  }

  ghost predicate Fair(st: State, e: Event)
    requires CanStep(st, e)
  {
    match e
    case Wrote(w) => WriteOk(st.store.rows, w)
    case Answered(r) => r.Ok? && st.pass.item.op == Create ==> FreshId(st.server, st.pass.item.table, r.newId)
    case Lost(newId) => st.pass.item.op == Create ==> FreshId(st.server, st.pass.item.table, newId)
    case Pulled(k, rec) => PullOk(st.server, k, rec)
    case _ => true
  }

  ghost predicate Possible(st: State, e: Event) { CanStep(st, e) && Fair(st, e) }

  ghost predicate IsRun(st: State, es: seq<Event>)
    decreases |es|
  {
    es == [] || (Possible(st, es[0]) && IsRun(Step(st, es[0]), es[1..]))
  }

  ghost function Run(st: State, es: seq<Event>): State
    requires IsRun(st, es)
    decreases |es|
  {
    if es == [] then st else Run(Step(st, es[0]), es[1..])
  }

  // ---------------------------------------------------------------------------------------
  // The invariant

  /** The unacknowledged create of `k` is at position `i`. */
  predicate CreatesAt(queue: seq<Item>, i: int, k: Key) {
    0 <= i < |queue| && !queue[i].synced && queue[i].op == Create && queue[i].Subject() == k
  }

  /** A create of `k` waits at or before position `last`. */
  ghost predicate PendingBy(queue: seq<Item>, last: int, k: Key) {
    exists i :: CreatesAt(queue, i, k) && i <= last
  }

  /** The create of `k` is unacknowledged. */
  ghost predicate Pending(queue: seq<Item>, k: Key) { PendingBy(queue, |queue| - 1, k) }

  /** Offline creates carry a placeholder, have a local row, and are the only create of it. */
  ghost predicate CreatesOk(s: Store) {
    && (forall i, k :: CreatesAt(s.queue, i, k) ==> IsPlaceholder(k) && k in s.rows)
    && (forall i, j, k :: CreatesAt(s.queue, i, k) && CreatesAt(s.queue, j, k) ==> i == j)
  }

  /** No placeholder outlives its create in the local tables. */
  ghost predicate RowsOk(s: Store) {
    && (forall k :: k in s.rows && IsPlaceholder(k) ==> Pending(s.queue, k))
    && (forall k, m :: k in s.rows && Mentions(k.table, s.rows[k].values, m) && IsPlaceholder(m) ==> m in s.rows)
  }

  /** Nor in the items still to be sent, where the create also comes first. */
  ghost predicate ItemOk(queue: seq<Item>, j: nat)
    requires j < |queue|
  {
    && (IsPlaceholder(queue[j].Subject()) ==> PendingBy(queue, j, queue[j].Subject()))
    && (forall m :: Mentions(queue[j].table, queue[j].payload, m) && IsPlaceholder(m) ==> PendingBy(queue, j - 1, m))
  }

  ghost predicate QueueOk(queue: seq<Item>) {
    forall j :: 0 <= j < |queue| && !queue[j].synced ==> ItemOk(queue, j)
  }

  /** Every server id seen on the client was given out by the server. */
  ghost predicate IdsKnown(s: Store, issued: set<Key>) {
    && (forall k :: k in s.rows && !IsPlaceholder(k) ==> k in issued)
    && (forall k, m :: k in s.rows && Mentions(k.table, s.rows[k].values, m) && !IsPlaceholder(m) ==> m in issued)
    && (forall k :: k in issued ==> !IsPlaceholder(k))
  }

  ghost predicate TodoOk(queue: seq<Item>, low: int, todo: seq<nat>) {
    && (forall a :: 0 <= a < |todo| ==> low < todo[a] < |queue| && !queue[todo[a]].synced)
    && (forall a, b :: 0 <= a < b < |todo| ==> todo[a] < todo[b])
  }

  ghost predicate PassOk(queue: seq<Item>, pass: Pass) {
    match pass
    case Idle => true
    case Sending(todo) => todo != [] && TodoOk(queue, -1, todo)
    case Awaiting(i, item, todo) => i < |queue| && !queue[i].synced && queue[i] == item && TodoOk(queue, i, todo)
  }

  ghost predicate Inv(st: State) {
    && CreatesOk(st.store) && RowsOk(st.store) && QueueOk(st.store.queue)
    && IdsKnown(st.store, st.server.issued) && PassOk(st.store.queue, st.pass)
  }

  /** A new device has no rows and no queue. */
  lemma {:induction false} StartsWell(server: Server)
    requires forall k :: k in server.issued ==> !IsPlaceholder(k)
    ensures Inv(State(Store(map[], []), Idle, server))
  {
  }

  // ---------------------------------------------------------------------------------------
  // Writes keep it

  lemma {:induction false} WriteKeepsQueue(s: Store, w: Write)
    requires CreatesOk(s) && RowsOk(s) && QueueOk(s.queue) && WriteOk(s.rows, w)
    ensures QueueOk(WriteLocal(s, w).queue)
    ensures forall k :: Pending(s.queue, k) ==> Pending(WriteLocal(s, w).queue, k)
    ensures w.op == Create ==> Pending(WriteLocal(s, w).queue, w.Subject())
  {
    var q, q' := s.queue, WriteLocal(s, w).queue;
    assert forall i :: 0 <= i < |q| ==> q'[i] == q[i];
    assert forall i, k :: CreatesAt(q, i, k) ==> CreatesAt(q', i, k);
    forall j | 0 <= j < |q'| && !q'[j].synced
      ensures ItemOk(q', j)
    {
      if j < |q| {
        assert ItemOk(q, j);
      } else {
        if w.op == Create {
          assert CreatesAt(q', j, w.Subject());
        }
      }
    }
    if w.op == Create {
      assert CreatesAt(q', |q|, w.Subject());
    }
  }

  /** The rows after a write: the subject's, with the payload laid over it, and the others as before. */
  lemma {:induction false} WriteKeepsRows(rows: Rows, w: Write)
    ensures forall k :: k in WriteRow(rows, w) && k != w.Subject() ==> k in rows && WriteRow(rows, w)[k] == rows[k]
    ensures forall k :: k in rows ==> k in WriteRow(rows, w)
    ensures forall k, m :: k in WriteRow(rows, w) && Mentions(k.table, WriteRow(rows, w)[k].values, m)
              ==> (k == w.Subject() && Mentions(w.table, w.payload, m))
                  || (k in rows && Mentions(k.table, rows[k].values, m))
  {
  }

  lemma {:induction false} WriteKeepsStore(s: Store, w: Write, issued: set<Key>)
    requires CreatesOk(s) && RowsOk(s) && QueueOk(s.queue) && IdsKnown(s, issued) && WriteOk(s.rows, w)
    ensures RowsOk(WriteLocal(s, w)) && IdsKnown(WriteLocal(s, w), issued)
  {
    WriteKeepsQueue(s, w);
    WriteKeepsRows(s.rows, w);
  }

  lemma {:induction false} WriteKeepsCreates(s: Store, w: Write)
    requires CreatesOk(s) && WriteOk(s.rows, w)
    ensures CreatesOk(WriteLocal(s, w))
  {
    WriteKeepsRows(s.rows, w);
    var q, q' := s.queue, WriteLocal(s, w).queue;
    assert forall i, k :: CreatesAt(q', i, k)
                          ==> CreatesAt(q, i, k) || (i == |q| && k == w.Subject() && w.op == Create);
  }

  lemma {:induction false} WriteKeepsInv(st: State, w: Write)
    requires Inv(st) && WriteOk(st.store.rows, w)
    ensures Inv(Step(st, Wrote(w)))
  {
    WriteKeepsQueue(st.store, w);
    WriteKeepsStore(st.store, w, st.server.issued);
    WriteKeepsCreates(st.store, w);
  }

  // ---------------------------------------------------------------------------------------
  // Acknowledgements keep it

  lemma {:induction false} RenamedMentions(k: Key, newId: int, t: Table, rec: Record, m: Key)
    requires Mentions(t, RenameRecord(map[k := newId], t, rec), m)
    requires newId != k.id
    ensures (m == Key(k.table, newId) && Mentions(t, rec, k)) || (m != k && Mentions(t, rec, m))
  {
  }

  /** Where the rows of a remapped table come from. */
  lemma {:induction false} RemapRowsOrigin(rows: Rows, k: Key, newId: int)
    requires k in rows && Key(k.table, newId) !in rows
    ensures var rows', k' := RemapRows(rows, k, newId), Key(k.table, newId);
            && rows'.Keys == rows.Keys - {k} + {k'}
            && (forall j :: j in rows && j != k ==>
                  rows'[j] == Row(RenameRecord(map[k := newId], j.table, rows[j].values), rows[j].deleted))
            && rows'[k'] == Row(RenameRecord(map[k := newId], k.table, rows[k].values), rows[k].deleted)
  {
  }

  /** The acknowledged create's own item and what it leaves of the others. */
  lemma {:induction false} AckQueueOrigin(queue: seq<Item>, i: nat, newId: int)
    requires i < |queue|
    ensures var q' := MarkSynced(RemapQueue(queue, queue[i].Subject(), newId, i), i);
            && |q'| == |queue|
            && (forall j :: 0 <= j < i ==> q'[j] == queue[j])
            && q'[i] == queue[i].(synced := true)
            && (forall j :: i < j < |queue| ==> q'[j] == RemapItem(queue[j], queue[i].Subject(), newId))
  {
  }

  /** Pending creates other than the acknowledged one stay pending, at the same positions. */
  lemma {:induction false} AckKeepsPending(queue: seq<Item>, i: nat, newId: int)
    requires i < |queue| && !queue[i].synced && queue[i].op == Create
    requires forall a, b, k :: CreatesAt(queue, a, k) && CreatesAt(queue, b, k) ==> a == b
    ensures var q' := MarkSynced(RemapQueue(queue, queue[i].Subject(), newId, i), i);
            forall a, k :: k != queue[i].Subject() && CreatesAt(queue, a, k) ==> CreatesAt(q', a, k)
    ensures var q' := MarkSynced(RemapQueue(queue, queue[i].Subject(), newId, i), i);
            forall a, k :: CreatesAt(q', a, k) ==> a != i && k != queue[i].Subject() && CreatesAt(queue, a, k)
  {
    AckQueueOrigin(queue, i, newId);
    var k0, q' := queue[i].Subject(), MarkSynced(RemapQueue(queue, queue[i].Subject(), newId, i), i);
    assert CreatesAt(queue, i, k0);
    forall a, k | CreatesAt(q', a, k)
      ensures a != i && k != k0 && CreatesAt(queue, a, k)
    {
      assert CreatesAt(queue, a, queue[a].Subject());
    }
  }

  lemma {:induction false} AckKeepsItem(queue: seq<Item>, i: nat, newId: int, j: nat)
    requires i < |queue| && CreatesAt(queue, i, queue[i].Subject())
    requires IsPlaceholder(queue[i].Subject()) && !IsPlaceholder(Key(queue[i].table, newId))
    requires forall a, b, k :: CreatesAt(queue, a, k) && CreatesAt(queue, b, k) ==> a == b
    requires j < |queue| && j != i && !queue[j].synced && ItemOk(queue, j)
    ensures ItemOk(MarkSynced(RemapQueue(queue, queue[i].Subject(), newId, i), i), j)
  {
    var k0, q' := queue[i].Subject(), MarkSynced(RemapQueue(queue, queue[i].Subject(), newId, i), i);
    AckQueueOrigin(queue, i, newId);
    AckKeepsPending(queue, i, newId);
    if j > i {
      forall m | Mentions(q'[j].table, q'[j].payload, m) && IsPlaceholder(m)
        ensures PendingBy(q', j - 1, m)
      {
        RenamedMentions(k0, newId, q'[j].table, queue[j].payload, m);
      }
    } else {
      forall m | Mentions(q'[j].table, q'[j].payload, m) && IsPlaceholder(m)
        ensures PendingBy(q', j - 1, m)
      {
        assert PendingBy(queue, j - 1, m);
      }
    }
  }

  lemma {:induction false} AckKeepsStore(s: Store, i: nat, newId: int, issued: set<Key>)
    requires CreatesOk(s) && RowsOk(s) && QueueOk(s.queue) && IdsKnown(s, issued)
    requires i < |s.queue| && CreatesAt(s.queue, i, s.queue[i].Subject())
    requires newId > 0 && !IsPlaceholder(Key(s.queue[i].table, newId)) && Key(s.queue[i].table, newId) !in issued
    ensures var s' := Answer(s, i, s.queue[i], Ok(newId));
            && s'.rows == RemapRows(s.rows, s.queue[i].Subject(), newId)
            && CreatesOk(s') && RowsOk(s') && QueueOk(s'.queue)
            && IdsKnown(s', issued + {Key(s.queue[i].table, newId)})
  {
    var k0 := s.queue[i].Subject();
    var k' := Key(k0.table, newId);
    var s' := Answer(s, i, s.queue[i], Ok(newId));
    assert k0 in s.rows && IsPlaceholder(k0);
    RemapRowsOrigin(s.rows, k0, newId);
    AckQueueOrigin(s.queue, i, newId);
    AckKeepsPending(s.queue, i, newId);
    forall j | 0 <= j < |s'.queue| && !s'.queue[j].synced
      ensures ItemOk(s'.queue, j)
    {
      AckKeepsItem(s.queue, i, newId, j);
    }
    forall k, m | k in s'.rows && Mentions(k.table, s'.rows[k].values, m)
      ensures m == k' || exists k1 :: k1 in s.rows && Mentions(k1.table, s.rows[k1].values, m) && m != k0
    {
      var k1 := if k == k' then k0 else k;
      RenamedMentions(k0, newId, k.table, s.rows[k1].values, m);
    }
    forall k | k in s'.rows && IsPlaceholder(k)
      ensures Pending(s'.queue, k)
    {
      assert Pending(s.queue, k);
      var a :| CreatesAt(s.queue, a, k) && a <= |s.queue| - 1;
      assert CreatesAt(s'.queue, a, k);
    }
  }

  /** Acknowledging an update or a delete, or flagging a conflict, takes nothing from the rest. */
  lemma {:induction false} FlagKeepsStore(s: Store, i: nat, item: Item, issued: set<Key>)
    requires CreatesOk(s) && RowsOk(s) && QueueOk(s.queue) && IdsKnown(s, issued)
    requires i < |s.queue| && item == s.queue[i].(synced := item.synced, conflict := item.conflict)
    requires item.synced == s.queue[i].synced || (item.synced && item.op != Create)
    ensures var s' := s.(queue := s.queue[i := item]);
            CreatesOk(s') && RowsOk(s') && QueueOk(s'.queue) && IdsKnown(s', issued)
  {
    var q' := s.queue[i := item];
    assert forall a, k :: CreatesAt(q', a, k) <==> CreatesAt(s.queue, a, k);
    forall j | 0 <= j < |q'| && !q'[j].synced
      ensures ItemOk(q', j)
    {
      assert ItemOk(s.queue, j);
    }
    assert forall k :: Pending(s.queue, k) ==> Pending(q', k);
  }

  // ---------------------------------------------------------------------------------------
  // Pulled rows keep it

  lemma {:induction false} PullKeepsStore(s: Store, k: Key, rec: Record, server: Server)
    requires CreatesOk(s) && RowsOk(s) && QueueOk(s.queue) && IdsKnown(s, server.issued) && PullOk(server, k, rec)
    ensures var s' := s.(rows := MergeRow(s.rows, k, rec));
            CreatesOk(s') && RowsOk(s') && QueueOk(s'.queue) && IdsKnown(s', server.issued)
  {
    var rows' := MergeRow(s.rows, k, rec);
    forall m | Mentions(k.table, rows'[k].values, m)
      ensures Mentions(k.table, rec, m) || (k in s.rows && Mentions(k.table, s.rows[k].values, m))
    {
    }
  }

  // ---------------------------------------------------------------------------------------
  // Every run keeps it

  lemma {:induction false} AnswerKeepsInv(st: State, r: Response)
    requires Inv(st) && Possible(st, Answered(r))
    ensures Inv(Step(st, Answered(r)))
  {
    if r.Ok? && st.pass.item.op == Create {
      assert CreatesAt(st.store.queue, st.pass.i, st.pass.item.Subject());
      AckKeepsStore(st.store, st.pass.i, r.newId, st.server.issued);
      AckQueueOrigin(st.store.queue, st.pass.i, r.newId);
    } else if r.Ok? {
      FlagKeepsStore(st.store, st.pass.i, st.pass.item.(synced := true), st.server.issued);
    } else if r.Business? {
      FlagKeepsStore(st.store, st.pass.i, st.pass.item.(conflict := true), st.server.issued);
    }
  }

  lemma {:induction false} StepKeepsInv(st: State, e: Event)
    requires Inv(st) && Possible(st, e)
    ensures Inv(Step(st, e))
  {
    match e
    case Wrote(w) => WriteKeepsInv(st, w);
    case Pulled(k, rec) => PullKeepsStore(st.store, k, rec, st.server);
    case Answered(r) => AnswerKeepsInv(st, r);
    case _ =>
  }

  /**
    * In every run, with failed and lost calls and with writes at any point, a placeholder occurs in
    * the local tables or in an unsent item only while the create of that row is unacknowledged.
    */
  lemma {:induction false} RunKeepsInv(st: State, es: seq<Event>)
    requires Inv(st) && IsRun(st, es)
    ensures Inv(Run(st, es))
    decreases |es|
  {
    if es != [] {
      StepKeepsInv(st, es[0]);
      RunKeepsInv(Step(st, es[0]), es[1..]);
    }
  }

  /** The statement of the invariant in one piece, for a key of any table. */
  lemma {:induction false} NoStalePlaceholder(st: State, es: seq<Event>, k: Key)
    requires Inv(st) && IsRun(st, es) && IsPlaceholder(k)
    requires !Pending(Run(st, es).store.queue, k)
    ensures var s := Run(st, es).store;
            && k !in s.rows
            && (forall j :: j in s.rows ==> !Mentions(j.table, s.rows[j].values, k))
            && (forall i :: 0 <= i < |s.queue| && !s.queue[i].synced ==>
                  s.queue[i].Subject() != k && !Mentions(s.queue[i].table, s.queue[i].payload, k))
  {
    RunKeepsInv(st, es);
    var s := Run(st, es).store;
    assert forall last :: PendingBy(s.queue, last, k) ==> Pending(s.queue, k);
    forall i | 0 <= i < |s.queue| && !s.queue[i].synced
      ensures s.queue[i].Subject() != k && !Mentions(s.queue[i].table, s.queue[i].payload, k)
    {
      assert ItemOk(s.queue, i);
    }
  }

  /** An acknowledgement leaves every foreign key that resolved resolving, to the same row. */
  lemma {:induction false} AckKeepsForeignKeys(s: Store, i: nat, newId: int, j: Key, c: Column, m: Key)
    requires i < |s.queue| && s.queue[i].op == Create && newId != 0 && newId != s.queue[i].recordId
    requires s.queue[i].Subject() in s.rows && Key(s.queue[i].table, newId) !in s.rows
    requires j in s.rows && m in s.rows && PointsAt(j.table, s.rows[j].values, c, m)
    ensures var rows', ren := Answer(s, i, s.queue[i], Ok(newId)).rows, map[s.queue[i].Subject() := newId];
            && Rename(ren, j) in rows' && Rename(ren, m) in rows'
            && PointsAt(j.table, rows'[Rename(ren, j)].values, c, Rename(ren, m))
            && rows'[Rename(ren, m)].deleted == s.rows[m].deleted
  {
    RemapRowsOrigin(s.rows, s.queue[i].Subject(), newId);
  }

  /** A create answered without an id, or with the id it already has, strands its placeholder. */
  lemma {:induction false} AckStrandsExactlyWithoutId(st: State, r: Response)
    requires Inv(st) && st.pass.Awaiting? && st.pass.item.op == Create && r.Ok?
    requires r.newId == 0 || r.newId == st.pass.item.recordId || FreshId(st.server, st.pass.item.table, r.newId)
    ensures RowsOk(Step(st, Answered(r)).store) <==> r.newId != 0 && r.newId != st.pass.item.recordId
  {
    var i, k, q := st.pass.i, st.pass.item.Subject(), st.store.queue;
    assert CreatesAt(q, i, k);
    if r.newId == 0 || r.newId == st.pass.item.recordId {
      var q' := MarkSynced(q, i);
      assert forall a :: CreatesAt(q', a, k) ==> CreatesAt(q, a, k);
      assert !Pending(q', k);
      assert k in Step(st, Answered(r)).store.rows;
    } else {
      AckKeepsStore(st.store, i, r.newId, st.server.issued);
    }
  }

  // ---------------------------------------------------------------------------------------
  // Exactly once: what is acknowledged is never sent again, what is not is never dropped

  /** Item `i` of the queue is acknowledged at some step of the run. */
  ghost predicate AckedDuring(st: State, es: seq<Event>, i: nat)
    requires IsRun(st, es)
    decreases |es|
  {
    es != [] && ((es[0].Answered? && es[0].r.Ok? && st.pass.i == i) || AckedDuring(Step(st, es[0]), es[1..], i))
  }

  ghost predicate SentDuring(st: State, es: seq<Event>, i: nat)
    requires IsRun(st, es)
    decreases |es|
  {
    es != [] && ((es[0].Sent? && st.pass.todo[0] == i) || SentDuring(Step(st, es[0]), es[1..], i))
  }

  lemma {:induction false} StepSyncs(st: State, e: Event, i: nat)
    requires Inv(st) && Possible(st, e) && i < |st.store.queue|
    ensures i < |Step(st, e).store.queue|
    ensures Step(st, e).store.queue[i].synced
        <==> st.store.queue[i].synced || (e.Answered? && e.r.Ok? && st.pass.i == i)
  {
    if e.Answered? && e.r.Ok? && st.pass.item.op == Create {
      assert CreatesAt(st.store.queue, st.pass.i, st.pass.item.Subject());
      AckQueueOrigin(st.store.queue, st.pass.i, e.r.newId);
    }
  }

  lemma {:induction false} SyncedExactlyWhenAcked(st: State, es: seq<Event>, i: nat)
    requires Inv(st) && IsRun(st, es) && i < |st.store.queue|
    ensures i < |Run(st, es).store.queue|
    ensures Run(st, es).store.queue[i].synced <==> st.store.queue[i].synced || AckedDuring(st, es, i)
    decreases |es|
  {
    if es != [] {
      StepKeepsInv(st, es[0]);
      StepSyncs(st, es[0], i);
      SyncedExactlyWhenAcked(Step(st, es[0]), es[1..], i);
    }
  }

  lemma {:induction false} AcknowledgedIsNeverResent(st: State, es: seq<Event>, i: nat)
    requires Inv(st) && IsRun(st, es) && i < |st.store.queue| && st.store.queue[i].synced
    ensures !SentDuring(st, es, i)
    decreases |es|
  {
    if es != [] {
      StepKeepsInv(st, es[0]);
      StepSyncs(st, es[0], i);
      AcknowledgedIsNeverResent(Step(st, es[0]), es[1..], i);
    }
  }
}
