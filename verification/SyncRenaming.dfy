/**
  * Renaming is invisible. Fix, for a whole run, the final server id of every placeholder that is
  * acknowledged in it. Seen through that renaming an acknowledgement changes no row, so the local
  * tables are what they would be had every record been born with its server id; and a pass whose
  * calls succeed leaves the server as if the queue, so renamed, had been applied to it in order.
  */
module SyncRenaming {
  import opened SyncRecords
  import opened SyncProtocol

  // ---------------------------------------------------------------------------------------
  // The local tables seen through a renaming

  /** `ren` sends placeholders to distinct server ids, none given out while its placeholder is in use. */
  ghost predicate Sound(ren: Renaming, st: State) {
    && (forall k :: k in ren ==> IsPlaceholder(k) && !IsPlaceholder(Rename(ren, k)))
    && (forall j, k :: j in ren && k in ren && Rename(ren, j) == Rename(ren, k) ==> j == k)
    && (forall k :: k in ren && k in st.store.rows ==> Rename(ren, k) !in st.server.issued)
  }

  ghost predicate Injective(ren: Renaming, rows: Rows) {
    forall j, k :: j in rows && k in rows && Rename(ren, j) == Rename(ren, k) ==> j == k
  }

  function RenameRow(ren: Renaming, t: Table, row: Row): Row {
    Row(RenameRecord(ren, t, row.values), row.deleted)
  }

  /** The row that is seen under the key `x`. */
  ghost function Source(ren: Renaming, rows: Rows, x: Key): (k: Key)
    requires exists j :: j in rows && Rename(ren, j) == x
    ensures k in rows && Rename(ren, k) == x
  {
    var k :| k in rows && Rename(ren, k) == x;
    k
  }

  ghost function View(ren: Renaming, rows: Rows): (v: Rows)
    requires Injective(ren, rows)
    ensures forall k :: k in rows ==> Rename(ren, k) in v && v[Rename(ren, k)] == RenameRow(ren, k.table, rows[k])
    ensures forall x :: x in v ==> exists k :: k in rows && Rename(ren, k) == x
  {
    var keys := set k | k in rows :: Rename(ren, k);
    map x | x in keys :: RenameRow(ren, x.table, rows[Source(ren, rows, x)])
  }

  /** A view is the one map that holds the renamed rows and nothing else. */
  lemma {:induction false} IsView(ren: Renaming, rows: Rows, v: Rows)
    requires Injective(ren, rows)
    requires forall k :: k in rows ==> Rename(ren, k) in v && v[Rename(ren, k)] == RenameRow(ren, k.table, rows[k])
    requires forall x :: x in v ==> exists k :: k in rows && Rename(ren, k) == x
    ensures v == View(ren, rows)
  {
    forall x | x in v || x in View(ren, rows)
      ensures x in v && x in View(ren, rows) && v[x] == View(ren, rows)[x]
    {
      var k :| k in rows && Rename(ren, k) == x;
    }
  }

  function RenameWrite(ren: Renaming, w: Write): Write {
    Write(w.table, w.op, Rename(ren, w.Subject()).id, RenameRecord(ren, w.table, w.payload))
  }

  function RenameItem(ren: Renaming, item: Item): Item {
    item.(recordId := Rename(ren, item.Subject()).id, payload := RenameRecord(ren, item.table, item.payload))
  }

  /** The step is one of a run in which `ren` holds the final ids. */
  ghost predicate Agrees(ren: Renaming, st: State, e: Event)
    requires CanStep(st, e)
  {
    match e
    case Wrote(w) => w.op == Create && w.Subject() in ren ==> Rename(ren, w.Subject()) !in st.server.issued
    case Answered(r) => r.Ok? && st.pass.item.op == Create ==>
      st.pass.item.Subject() in ren && ren[st.pass.item.Subject()] == r.newId
    case Lost(newId) => st.pass.item.op == Create ==>
      forall k :: k in ren ==> Rename(ren, k) != Key(st.pass.item.table, newId)
    case _ => true
  }

  ghost predicate RunAgrees(ren: Renaming, st: State, es: seq<Event>)
    requires IsRun(st, es)
    decreases |es|
  {
    es == [] || (Agrees(ren, st, es[0]) && RunAgrees(ren, Step(st, es[0]), es[1..]))
  }

  /** A step on a database where ids never change: only writes and pulls do anything. */
  function Seen(ren: Renaming, rows: Rows, e: Event): Rows {
    match e
    case Wrote(w) => WriteRow(rows, RenameWrite(ren, w))
    case Pulled(k, rec) => MergeRow(rows, k, rec)
    case _ => rows
  }

  function Replay(ren: Renaming, rows: Rows, es: seq<Event>): Rows
    decreases |es|
  {
    if es == [] then rows else Replay(ren, Seen(ren, rows, es[0]), es[1..])
  }

  lemma {:induction false} SoundIsInjective(ren: Renaming, st: State)
    requires Sound(ren, st) && IdsKnown(st.store, st.server.issued)
    ensures Injective(ren, st.store.rows)
  {
  }

  lemma {:induction false} RenameRecordUnion(ren: Renaming, t: Table, a: Record, b: Record)
    ensures RenameRecord(ren, t, a + b) == RenameRecord(ren, t, a) + RenameRecord(ren, t, b)
  {
  }

  /** Renaming `k` to its final id first changes nothing in the final view. */
  lemma {:induction false} RenameTwice(ren: Renaming, k: Key, newId: int, t: Table, rec: Record)
    requires k in ren && ren[k] == newId && Key(k.table, newId) !in ren
    ensures RenameRecord(ren, t, RenameRecord(map[k := newId], t, rec)) == RenameRecord(ren, t, rec)
  {
  }

  /** A record without placeholders is its own final view. */
  lemma {:induction false} RenameNothing(ren: Renaming, t: Table, rec: Record)
    requires forall k :: k in ren ==> IsPlaceholder(k)
    requires forall m :: Mentions(t, rec, m) ==> !IsPlaceholder(m)
    ensures RenameRecord(ren, t, rec) == rec
  {
    forall c | c in rec
      ensures RenameValue(ren, t, c, rec[c]) == rec[c]
    {
      if Target(t, c).Some? && rec[c].Num? {
        assert Mentions(t, rec, Key(Target(t, c).value, rec[c].n));
      }
    }
  }

  lemma {:induction false} AckIsInvisible(ren: Renaming, rows: Rows, k: Key, newId: int)
    requires Injective(ren, rows) && k in rows && k in ren && ren[k] == newId
    requires Key(k.table, newId) !in rows && Key(k.table, newId) !in ren
    requires Injective(ren, RemapRows(rows, k, newId))
    ensures View(ren, RemapRows(rows, k, newId)) == View(ren, rows)
  {
    var rows', k' := RemapRows(rows, k, newId), Key(k.table, newId);
    RemapRowsOrigin(rows, k, newId);
    var v := View(ren, rows);
    forall j' | j' in rows'
      ensures Rename(ren, j') in v && v[Rename(ren, j')] == RenameRow(ren, j'.table, rows'[j'])
    {
      var j := if j' == k' then k else j';
      RenameTwice(ren, k, newId, j.table, rows[j].values);
      assert Rename(ren, j) == Rename(ren, j');
    }
    forall x | x in v
      ensures exists j :: j in rows' && Rename(ren, j) == x
    {
      var j :| j in rows && Rename(ren, j) == x;
      assert Rename(ren, if j == k then k' else j) == x;
    }
    IsView(ren, rows', v);
  }

  /** Storing one row commutes with the view. */
  lemma {:induction false} PutIsSeenRenamed(ren: Renaming, rows: Rows, k: Key, row: Row)
    requires Injective(ren, rows[k := row])
    ensures Injective(ren, rows)
    ensures View(ren, rows[k := row]) == View(ren, rows)[Rename(ren, k) := RenameRow(ren, k.table, row)]
    ensures k in rows <==> Rename(ren, k) in View(ren, rows)
  {
    var rows' := rows[k := row];
    assert forall j :: j in rows ==> j in rows';
    assert k in rows';
    var v' := View(ren, rows)[Rename(ren, k) := RenameRow(ren, k.table, row)];
    forall j | j in rows'
      ensures Rename(ren, j) in v' && v'[Rename(ren, j)] == RenameRow(ren, j.table, rows'[j])
    {
    }
    IsView(ren, rows', v');
  }

  lemma {:induction false} WriteIsSeenRenamed(ren: Renaming, rows: Rows, w: Write)
    requires Injective(ren, rows) && Injective(ren, WriteRow(rows, w))
    requires w.Subject() in rows || (w.op != Delete && w.payload != map[])
    ensures View(ren, WriteRow(rows, w)) == WriteRow(View(ren, rows), RenameWrite(ren, w))
  {
    var k, w' := w.Subject(), RenameWrite(ren, w);
    assert w'.Subject() == Rename(ren, k);
    assert w'.payload.Keys == w.payload.Keys;
    if w.op == Delete {
      PutIsSeenRenamed(ren, rows, k, rows[k].(deleted := true));
    } else if w.payload != map[] {
      assert w'.payload != map[];
      PutIsSeenRenamed(ren, rows, k, WriteRow(rows, w)[k]);
      if k in rows {
        RenameRecordUnion(ren, w.table, rows[k].values, w.payload);
      }
    } else {
      assert w'.payload == map[];
    }
  }

  lemma {:induction false} PullIsSeenAsIs(ren: Renaming, rows: Rows, k: Key, rec: Record)
    requires Injective(ren, rows) && Injective(ren, MergeRow(rows, k, rec))
    requires k !in ren && RenameRecord(ren, k.table, rec) == rec
    ensures View(ren, MergeRow(rows, k, rec)) == MergeRow(View(ren, rows), k, rec)
  {
    if k !in rows {
      NewRowIsSeen(ren, rows, k, rec);
      return;
    }
    SeenRow(ren, rows, k);
    if UpdatedAtOf(rec) >= UpdatedAtOf(rows[k].values) {
      OverlayIsSeen(ren, rows, k, rec);
    }
  }

  /** A row under a server id is seen under that id. */
  lemma {:induction false} SeenRow(ren: Renaming, rows: Rows, k: Key)
    requires Injective(ren, rows) && k !in ren && k in rows
    ensures k in View(ren, rows) && UpdatedAtOf(View(ren, rows)[k].values) == UpdatedAtOf(rows[k].values)
  {
    SameUpdatedAt(ren, k.table, rows[k].values);
  }

  lemma {:induction false} NewRowIsSeen(ren: Renaming, rows: Rows, k: Key, rec: Record)
    requires k !in rows && k !in ren && Injective(ren, rows[k := Row(rec, false)])
    requires RenameRecord(ren, k.table, rec) == rec
    ensures Injective(ren, rows) && k !in View(ren, rows)
    ensures View(ren, rows[k := Row(rec, false)]) == View(ren, rows)[k := Row(rec, false)]
  {
    PutIsSeenRenamed(ren, rows, k, Row(rec, false));
  }

  lemma {:induction false} SameUpdatedAt(ren: Renaming, t: Table, rec: Record)
    ensures UpdatedAtOf(RenameRecord(ren, t, rec)) == UpdatedAtOf(rec)
  {
  }

  lemma {:induction false} OverlayIsSeen(ren: Renaming, rows: Rows, k: Key, rec: Record)
    requires k in rows && k !in ren && Injective(ren, rows[k := Row(rows[k].values + rec, false)])
    requires RenameRecord(ren, k.table, rec) == rec
    ensures Injective(ren, rows) && k in View(ren, rows)
    ensures var seen := View(ren, rows);
            View(ren, rows[k := Row(rows[k].values + rec, false)]) == seen[k := Row(seen[k].values + rec, false)]
  {
    PutIsSeenRenamed(ren, rows, k, Row(rows[k].values + rec, false));
    RenameRecordUnion(ren, k.table, rows[k].values, rec);
  }

  lemma {:induction false} StepIsSound(ren: Renaming, st: State, e: Event)
    requires Inv(st) && Sound(ren, st) && Possible(st, e) && Agrees(ren, st, e)
    ensures Sound(ren, Step(st, e))
  {
    if e.Answered? && e.r.Ok? && st.pass.item.op == Create {
      var i, k := st.pass.i, st.pass.item.Subject();
      assert CreatesAt(st.store.queue, i, k);
      RemapRowsOrigin(st.store.rows, k, e.r.newId);
    } else if e.Wrote? {
      WriteKeepsRows(st.store.rows, e.w);
    }
  }

  lemma {:induction false} AnswerIsNotSeen(ren: Renaming, st: State, r: Response)
    requires Inv(st) && Sound(ren, st) && Possible(st, Answered(r)) && Agrees(ren, st, Answered(r))
    requires Injective(ren, st.store.rows) && Injective(ren, Step(st, Answered(r)).store.rows)
    ensures View(ren, Step(st, Answered(r)).store.rows) == View(ren, st.store.rows)
  {
    var item, store := st.pass.item, st.store;
    assert Step(st, Answered(r)).store == Answer(store, st.pass.i, item, r);
    if r.Ok? && item.op == Create {
      assert CreatesAt(store.queue, st.pass.i, item.Subject());
      assert item.Subject() in store.rows && Key(item.table, r.newId) !in store.rows;
      AckIsInvisible(ren, store.rows, item.Subject(), r.newId);
    } else {
      OtherAnswersKeepRows(store, st.pass.i, item, r);
    }
  }

  lemma {:induction false} OtherAnswersKeepRows(s: Store, i: nat, item: Item, r: Response)
    requires i < |s.queue| && !(r.Ok? && item.op == Create)
    ensures Answer(s, i, item, r).rows == s.rows
  {
  }

  lemma {:induction false} StepIsSeen(ren: Renaming, st: State, e: Event)
    requires Inv(st) && Sound(ren, st) && Possible(st, e) && Agrees(ren, st, e)
    requires Injective(ren, st.store.rows) && Injective(ren, Step(st, e).store.rows)
    ensures View(ren, Step(st, e).store.rows) == Seen(ren, View(ren, st.store.rows), e)
  {
    if e.Wrote? {
      WriteIsSeenRenamed(ren, st.store.rows, e.w);
    } else if e.Pulled? {
      RenameNothing(ren, e.k.table, e.rec);
      PullIsSeenAsIs(ren, st.store.rows, e.k, e.rec);
    } else if e.Answered? {
      AnswerIsNotSeen(ren, st, e.r);
    } else {
      assert Step(st, e).store.rows == st.store.rows;
    }
  }

  /** The final view of the local tables is what the writes and pulls alone make of it. */
  lemma {:induction false} RunIsSeen(ren: Renaming, st: State, es: seq<Event>)
    requires Inv(st) && Sound(ren, st) && IsRun(st, es) && RunAgrees(ren, st, es)
    ensures Injective(ren, st.store.rows) && Injective(ren, Run(st, es).store.rows)
    ensures View(ren, Run(st, es).store.rows) == Replay(ren, View(ren, st.store.rows), es)
    decreases |es|
  {
    if es == [] {
      SoundIsInjective(ren, st);
    } else {
      StepKeepsInv(st, es[0]);
      StepIsSound(ren, st, es[0]);
      SoundIsInjective(ren, st);
      SoundIsInjective(ren, Step(st, es[0]));
      StepIsSeen(ren, st, es[0]);
      RunIsSeen(ren, Step(st, es[0]), es[1..]);
    }
  }

  /** Once no placeholder is left the tables are their own final view. */
  lemma {:induction false} ViewOfServerIds(ren: Renaming, st: State)
    requires Inv(st) && Sound(ren, st)
    requires forall k :: k in ren ==> !Pending(st.store.queue, k)
    ensures Injective(ren, st.store.rows) && View(ren, st.store.rows) == st.store.rows
  {
    SoundIsInjective(ren, st);
    forall k | k in st.store.rows
      ensures Rename(ren, k) == k && RenameRow(ren, k.table, st.store.rows[k]) == st.store.rows[k]
    {
      var rec := st.store.rows[k].values;
      forall c | c in rec
        ensures RenameValue(ren, k.table, c, rec[c]) == rec[c]
      {
        if Target(k.table, c).Some? && rec[c].Num? {
          var m := Key(Target(k.table, c).value, rec[c].n);
          assert PointsAt(k.table, rec, c, m);
          assert Mentions(k.table, rec, m);
        }
      }
    }
    IsView(ren, st.store.rows, st.store.rows);
  }

  // ---------------------------------------------------------------------------------------
  // The renaming of a run

  /** The id a step gives to a placeholder, if it acknowledges its create. */
  function NamedBy(st: State, e: Event): Renaming
    requires CanStep(st, e)
  {
    if e.Answered? && e.r.Ok? && st.pass.item.op == Create then map[st.pass.item.Subject() := e.r.newId] else map[]
  }

  /** The server id of every placeholder acknowledged in the run. */
  ghost function Names(st: State, es: seq<Event>): Renaming
    requires IsRun(st, es)
    decreases |es|
  {
    if es == [] then map[] else Names(Step(st, es[0]), es[1..]) + NamedBy(st, es[0])
  }

  /** No offline create takes a placeholder of `used`, or one acknowledged earlier in the run. */
  ghost predicate NoReuse(st: State, es: seq<Event>, used: set<Key>)
    requires IsRun(st, es)
    decreases |es|
  {
    es == [] || ((es[0].Wrote? && es[0].w.op == Create ==> es[0].w.Subject() !in used)
                 && NoReuse(Step(st, es[0]), es[1..], used + NamedBy(st, es[0]).Keys))
  }

  /** A step names a placeholder that is in the tables, with an id never given out before. */
  lemma {:induction false} NamedIsFresh(st: State, e: Event, k: Key)
    requires Inv(st) && Possible(st, e) && k in NamedBy(st, e)
    ensures IsPlaceholder(k) && k in st.store.rows && k !in Step(st, e).store.rows
    ensures var name := Rename(NamedBy(st, e), k);
            !IsPlaceholder(name) && name !in st.server.issued && name in Step(st, e).server.issued
  {
    assert CreatesAt(st.store.queue, st.pass.i, k);
    RemapRowsOrigin(st.store.rows, k, e.r.newId);
  }

  lemma {:induction false} IssuedGrows(st: State, e: Event)
    requires Possible(st, e)
    ensures st.server.issued <= Step(st, e).server.issued
  {
  }

  /** The renaming of a run is sound where the run begins: its ids are new and pairwise distinct. */
  lemma {:induction false} NamesAreSound(st: State, es: seq<Event>)
    requires Inv(st) && IsRun(st, es)
    ensures Sound(Names(st, es), st)
    ensures forall k :: k in Names(st, es) ==> Rename(Names(st, es), k) !in st.server.issued
    decreases |es|
  {
    if es != [] {
      var rest, now := Names(Step(st, es[0]), es[1..]), NamedBy(st, es[0]);
      StepKeepsInv(st, es[0]);
      NamesAreSound(Step(st, es[0]), es[1..]);
      IssuedGrows(st, es[0]);
      forall k | k in now
        ensures IsPlaceholder(k) && !IsPlaceholder(Rename(now, k)) && Rename(now, k) !in st.server.issued
        ensures Rename(now, k) in Step(st, es[0]).server.issued
      {
        NamedIsFresh(st, es[0], k);
      }
      forall k | k in rest + now
        ensures Rename(rest + now, k) == if k in now then Rename(now, k) else Rename(rest, k)
      {
      }
    }
  }

  /** A placeholder that is gone stays gone, unless an offline create takes it again. */
  lemma {:induction false} GoneStaysGone(st: State, e: Event, k: Key)
    requires Inv(st) && Possible(st, e) && IsPlaceholder(k) && k !in st.store.rows
    requires e.Wrote? && e.w.op == Create ==> e.w.Subject() != k
    ensures k !in Step(st, e).store.rows
  {
    if e.Wrote? {
      WriteKeepsRows(st.store.rows, e.w);
    } else if e.Answered? && e.r.Ok? && st.pass.item.op == Create {
      NamedIsFresh(st, e, st.pass.item.Subject());
      RemapRowsOrigin(st.store.rows, st.pass.item.Subject(), e.r.newId);
    }
  }

  /** What the run names, or was gone before, is not in the tables at its end; the latter it does not name. */
  lemma {:induction false} NamedIsGone(st: State, es: seq<Event>, used: set<Key>)
    requires Inv(st) && IsRun(st, es) && NoReuse(st, es, used)
    requires forall k :: k in used ==> IsPlaceholder(k) && k !in st.store.rows
    ensures forall k :: k in used ==> k !in Names(st, es)
    ensures forall k :: k in used || k in Names(st, es) ==> k !in Run(st, es).store.rows
    decreases |es|
  {
    if es != [] {
      var now := NamedBy(st, es[0]);
      StepKeepsInv(st, es[0]);
      forall k | k in used + now.Keys
        ensures IsPlaceholder(k) && k !in Step(st, es[0]).store.rows && (k in used ==> k !in now)
      {
        if k in now {
          NamedIsFresh(st, es[0], k);
        } else {
          GoneStaysGone(st, es[0], k);
        }
      }
      NamedIsGone(Step(st, es[0]), es[1..], used + now.Keys);
    }
  }

  /** `ren` holds the names of the rest of the run, and ids given out earlier for `used`. */
  ghost predicate Continues(ren: Renaming, st: State, es: seq<Event>, used: set<Key>)
    requires IsRun(st, es)
  {
    && ren.Keys == used + Names(st, es).Keys
    && (forall k :: k in Names(st, es) ==> ren[k] == Names(st, es)[k])
    && (forall k :: k in used ==> IsPlaceholder(k) && k !in st.store.rows && Rename(ren, k) in st.server.issued)
  }

  lemma {:induction false} StepContinues(ren: Renaming, st: State, es: seq<Event>, used: set<Key>)
    requires Inv(st) && es != [] && IsRun(st, es) && NoReuse(st, es, used) && Continues(ren, st, es, used)
    ensures Continues(ren, Step(st, es[0]), es[1..], used + NamedBy(st, es[0]).Keys)
  {
    var st', now, used' := Step(st, es[0]), NamedBy(st, es[0]), used + NamedBy(st, es[0]).Keys;
    IssuedGrows(st, es[0]);
    StepKeepsInv(st, es[0]);
    forall k | k in used'
      ensures IsPlaceholder(k) && k !in st'.store.rows && Rename(ren, k) in st'.server.issued
    {
      if k in now {
        NamedIsFresh(st, es[0], k);
        assert ren[k] == now[k];
      } else {
        GoneStaysGone(st, es[0], k);
      }
    }
    NamedIsGone(st', es[1..], used');
  }

  lemma {:induction false} NamesAgree(ren: Renaming, st: State, es: seq<Event>, used: set<Key>)
    requires Inv(st) && IsRun(st, es) && NoReuse(st, es, used) && Continues(ren, st, es, used)
    ensures RunAgrees(ren, st, es)
    decreases |es|
  {
    if es != [] {
      NamesAreSound(st, es);
      StepKeepsInv(st, es[0]);
      StepContinues(ren, st, es, used);
      NamesAreSound(Step(st, es[0]), es[1..]);
      NamesAgree(ren, Step(st, es[0]), es[1..], used + NamedBy(st, es[0]).Keys);
      forall k | k in ren
        ensures k in used || Rename(ren, k) == Rename(Names(st, es), k)
      {
      }
    }
  }

  /** A create waiting in the queue stays where it is until it is acknowledged, and then it is named. */
  lemma {:induction false} SyncedIsNamed(st: State, es: seq<Event>, i: nat, k: Key)
    requires Inv(st) && IsRun(st, es) && CreatesAt(st.store.queue, i, k)
    requires i < |Run(st, es).store.queue| && Run(st, es).store.queue[i].synced
    ensures k in Names(st, es)
    decreases |es|
  {
    if es != [] && k !in NamedBy(st, es[0]) {
      var q, e := st.store.queue, es[0];
      StepKeepsInv(st, e);
      StepSyncs(st, e, i);
      if e.Answered? && e.r.Ok? && st.pass.item.op == Create {
        assert CreatesAt(q, st.pass.i, st.pass.item.Subject());
        AckKeepsPending(q, st.pass.i, e.r.newId);
      }
      assert CreatesAt(Step(st, e).store.queue, i, k);
      SyncedIsNamed(Step(st, e), es[1..], i, k);
    }
  }

  /** So every run has its renaming. */
  lemma {:induction false} RunIsNamed(st: State, es: seq<Event>)
    requires Inv(st) && IsRun(st, es) && NoReuse(st, es, {})
    ensures Sound(Names(st, es), st) && RunAgrees(Names(st, es), st, es)
    ensures Sound(Names(st, es), Run(st, es))
    ensures forall k :: k in Names(st, es) ==> k !in Run(st, es).store.rows
  {
    NamesAreSound(st, es);
    NamesAgree(Names(st, es), st, es, {});
    NamedIsGone(st, es, {});
  }

  /**
    * Over any run, with failures, lost answers, writes between any two steps and pulls, the local
    * tables end as they would had every record acknowledged in it been born with its server id:
    * only the writes and the pulls, so renamed, have done anything.
    */
  lemma {:induction false} RenamingIsInvisible(st: State, es: seq<Event>)
    requires Inv(st) && IsRun(st, es) && NoReuse(st, es, {})
    ensures var ren := Names(st, es);
            && Sound(ren, st) && Injective(ren, st.store.rows)
            && Run(st, es).store.rows == Replay(ren, View(ren, st.store.rows), es)
  {
    var ren, end := Names(st, es), Run(st, es);
    RunIsNamed(st, es);
    RunIsSeen(ren, st, es);
    RunKeepsInv(st, es);
    forall k | k in ren
      ensures !Pending(end.store.queue, k)
    {
    }
    ViewOfServerIds(ren, end);
  }

  // ---------------------------------------------------------------------------------------
  // What a pass of successful calls leaves on the server

  predicate Succeeds(e: Event) {
    e.Wrote? || e.Sent? || (e.Answered? && e.r.Ok?)
  }

  function Rest(pass: Pass): seq<nat> {
    match pass
    case Idle => []
    case Sending(todo) => todo
    case Awaiting(i, _, todo) => [i] + todo
  }

  /** The queued operations at the given positions, in order, with every placeholder replaced. */
  function ApplyAll(ren: Renaming, rows: map<Key, Record>, queue: seq<Item>, todo: seq<nat>): map<Key, Record>
    requires forall a :: 0 <= a < |todo| ==> todo[a] < |queue|
    decreases |todo|
  {
    if todo == [] then rows
    else
      var item := RenameItem(ren, queue[todo[0]]);
      ApplyAll(ren, ServerApply(rows, item, item.recordId), queue, todo[1..])
  }

  /** Midway through a pass over `queue`: what is left of it is as it was, up to the renaming. */
  ghost predicate MidPass(ren: Renaming, queue: seq<Item>, st: State) {
    && Inv(st) && Sound(ren, st) && |queue| <= |st.store.queue|
    && (forall x :: x in Rest(st.pass) ==>
          x < |queue| && RenameItem(ren, st.store.queue[x]) == RenameItem(ren, queue[x]))
    && (forall x :: 0 <= x < |queue| && !st.store.queue[x].synced ==> x in Rest(st.pass))
  }

  /** In such a pass the item in flight carries no placeholder, unless it is the one being created. */
  lemma {:induction false} FlightIsFinal(ren: Renaming, queue: seq<Item>, st: State)
    requires MidPass(ren, queue, st) && st.pass.Awaiting?
    ensures RenameRecord(ren, st.pass.item.table, st.pass.item.payload) == st.pass.item.payload
    ensures st.pass.item.op != Create ==> Rename(ren, st.pass.item.Subject()) == st.pass.item.Subject()
  {
    var q, i := st.store.queue, st.pass.i;
    assert i in Rest(st.pass);
    assert forall a :: a in Rest(st.pass) ==> a >= i;
    assert forall a :: 0 <= a < i ==> q[a].synced;
    assert ItemOk(q, i);
    RenameNothing(ren, q[i].table, q[i].payload);
  }

  /** The items left of the pass look the same, renamed, after an acknowledgement. */
  lemma {:induction false} AnswerKeepsItem(ren: Renaming, st: State, newId: int, x: nat)
    requires Inv(st) && Sound(ren, st) && Possible(st, Answered(Ok(newId))) && Agrees(ren, st, Answered(Ok(newId)))
    requires st.pass.i < x < |st.store.queue| && !st.store.queue[x].synced
    ensures var q' := Step(st, Answered(Ok(newId))).store.queue;
            x < |q'| && RenameItem(ren, q'[x]) == RenameItem(ren, st.store.queue[x])
  {
    var item, k := st.store.queue[x], st.pass.item.Subject();
    if st.pass.item.op == Create {
      assert CreatesAt(st.store.queue, st.pass.i, k);
      AckQueueOrigin(st.store.queue, st.pass.i, newId);
      RenameTwice(ren, k, newId, item.table, item.payload);
    }
  }

  /** The server does what the item, renamed, asks for. */
  lemma {:induction false} AnswerOnServer(ren: Renaming, queue: seq<Item>, st: State, newId: int)
    requires MidPass(ren, queue, st) && st.pass.Awaiting? && Possible(st, Answered(Ok(newId)))
    requires Agrees(ren, st, Answered(Ok(newId)))
    ensures st.pass.i < |queue|
    ensures var item := RenameItem(ren, queue[st.pass.i]);
            Step(st, Answered(Ok(newId))).server.rows == ServerApply(st.server.rows, item, item.recordId)
  {
    assert st.pass.i in Rest(st.pass);
    FlightIsFinal(ren, queue, st);
  }

  lemma {:induction false} AnswerMidPass(ren: Renaming, queue: seq<Item>, st: State, newId: int)
    requires MidPass(ren, queue, st) && st.pass.Awaiting? && Possible(st, Answered(Ok(newId)))
    requires Agrees(ren, st, Answered(Ok(newId)))
    ensures MidPass(ren, queue, Step(st, Answered(Ok(newId))))
    ensures Rest(Step(st, Answered(Ok(newId))).pass) == st.pass.todo
  {
    var st', i, todo := Step(st, Answered(Ok(newId))), st.pass.i, st.pass.todo;
    StepKeepsInv(st, Answered(Ok(newId)));
    StepIsSound(ren, st, Answered(Ok(newId)));
    assert Rest(st'.pass) == todo;
    forall x | x in todo
      ensures x < |queue| && RenameItem(ren, st'.store.queue[x]) == RenameItem(ren, queue[x])
    {
      assert x in Rest(st.pass);
      AnswerKeepsItem(ren, st, newId, x);
    }
    forall x | 0 <= x < |st.store.queue|
      ensures x < |st'.store.queue| && (st'.store.queue[x].synced <==> st.store.queue[x].synced || x == i)
    {
      StepSyncs(st, Answered(Ok(newId)), x);
    }
  }

  lemma {:induction false} RestOfPass(ren: Renaming, queue: seq<Item>, st: State, es: seq<Event>)
    requires MidPass(ren, queue, st) && IsRun(st, es) && RunAgrees(ren, st, es)
    requires forall e :: e in es ==> Succeeds(e)
    requires Run(st, es).pass.Idle?
    ensures |queue| <= |Run(st, es).store.queue|
    ensures forall x :: x in Rest(st.pass) ==> x < |queue| && Run(st, es).store.queue[x].synced
    ensures (forall a :: 0 <= a < |Rest(st.pass)| ==> Rest(st.pass)[a] < |queue|)
            && Run(st, es).server.rows == ApplyAll(ren, st.server.rows, queue, Rest(st.pass))
    decreases |es|
  {
    assert forall a :: 0 <= a < |Rest(st.pass)| ==> Rest(st.pass)[a] in Rest(st.pass);
    if es != [] {
      var e, next := es[0], Step(st, es[0]);
      assert Succeeds(e);
      if e.Answered? {
        AnswerOnServer(ren, queue, st, e.r.newId);
        AnswerMidPass(ren, queue, st, e.r.newId);
        assert Rest(st.pass)[1..] == st.pass.todo;
      } else {
        StepKeepsInv(st, e);
        StepIsSound(ren, st, e);
        assert Rest(next.pass) == Rest(st.pass);
      }
      RestOfPass(ren, queue, next, es[1..]);
      forall x | x in Rest(st.pass)
        ensures Run(st, es).store.queue[x].synced
      {
        if x !in Rest(next.pass) {
          LeftTheRest(st, es, x);
        }
      }
    }
  }

  /** What leaves the rest of a pass by a successful step is synced, and stays so. */
  lemma {:induction false} LeftTheRest(st: State, es: seq<Event>, x: nat)
    requires Inv(st) && es != [] && IsRun(st, es) && Succeeds(es[0])
    requires x in Rest(st.pass) && x !in Rest(Step(st, es[0]).pass) && x < |st.store.queue|
    ensures x < |Run(st, es).store.queue| && Run(st, es).store.queue[x].synced
  {
    StepKeepsInv(st, es[0]);
    StepSyncs(st, es[0], x);
    SyncedExactlyWhenAcked(Step(st, es[0]), es[1..], x);
  }

  /**
    * A pass all of whose calls succeed, with writes at every point in between: each item it set
    * out with is synced, and the server is as if those items, each placeholder replaced by its
    * server id, had been applied to it in queue order.
    */
  lemma {:induction false} PassAppliesTheQueue(st: State, es: seq<Event>)
    requires Inv(st) && st.pass.Idle? && IsRun(st, [Started] + es) && NoReuse(st, [Started] + es, {})
    requires forall e :: e in es ==> Succeeds(e)
    requires Run(st, [Started] + es).pass.Idle?
    ensures var end, todo := Run(st, [Started] + es), Unsynced(st.store.queue);
            && |st.store.queue| <= |end.store.queue|
            && (forall i :: 0 <= i < |st.store.queue| ==> end.store.queue[i].synced)
            && Sound(Names(st, [Started] + es), st)
            && (forall k :: Pending(st.store.queue, k) ==> k in Names(st, [Started] + es))
            && end.server.rows == ApplyAll(Names(st, [Started] + es), st.server.rows, st.store.queue, todo)
  {
    var ren, next := Names(st, [Started] + es), Step(st, Started);
    RunIsNamed(st, [Started] + es);
    assert ([Started] + es)[1..] == es;
    StepKeepsInv(st, Started);
    StepIsSound(ren, st, Started);
    RestOfPass(ren, st.store.queue, next, es);
    forall i | 0 <= i < |st.store.queue|
      ensures i < |Run(next, es).store.queue| && Run(next, es).store.queue[i].synced
    {
      SyncedExactlyWhenAcked(next, es, i);
    }
    forall k | Pending(st.store.queue, k)
      ensures k in ren
    {
      var i :| CreatesAt(st.store.queue, i, k);
      SyncedIsNamed(st, [Started] + es, i, k);
    }
  }
}
