/**
  * The store the application runs: the local tables and the queue, updated in place. Every method
  * is tied to the functions of SyncRecords, over which the protocol's properties are stated.
  */
module SyncStore {
  import opened Prelude
  import opened SyncRecords
  import opened SyncProtocol
  import opened SyncColumns
  import Naming = SyncRenaming

  /** What happens while one call of a pass is awaited: the user's writes, then the answer. */
  datatype Turn = Turn(writes: seq<Write>, response: Response)

  function WriteAll(s: Store, ws: seq<Write>): (r: Store)
    ensures |r.queue| >= |s.queue| && r.queue[..|s.queue|] == s.queue
    decreases |ws|
  {
    if ws == [] then s else WriteAll(WriteLocal(s, ws[0]), ws[1..])
  }

  lemma {:induction false} WriteAllSnoc(s: Store, ws: seq<Write>, w: Write)
    ensures WriteAll(s, ws + [w]) == WriteLocal(WriteAll(s, ws), w)
    decreases |ws|
  {
    if ws == [] {
      assert ws + [w] == [w] && [w][1..] == [];
    } else {
      assert (ws + [w])[1..] == ws[1..] + [w];
      WriteAllSnoc(WriteLocal(s, ws[0]), ws[1..], w);
    }
  }

  /** One item of a pass. */
  function PushOne(s: Store, i: nat, turn: Turn): (r: Store)
    requires i < |s.queue|
    ensures |r.queue| >= |s.queue|
  {
    Answer(WriteAll(s, turn.writes), i, s.queue[i], turn.response)
  }

  /** A whole pass over the positions `todo`; an authentication failure ends it. */
  function PushAll(s: Store, todo: seq<nat>, turns: seq<Turn>): Store
    requires |todo| == |turns| && forall a :: 0 <= a < |todo| ==> todo[a] < |s.queue|
    decreases |todo|
  {
    if todo == [] then s
    else
      var next := PushOne(s, todo[0], turns[0]);
      if turns[0].response == AuthError then next else PushAll(next, todo[1..], turns[1..])
  }

  function WriteEvents(ws: seq<Write>): (r: seq<Event>)
    ensures |r| == |ws|
  {
    seq(|ws|, a requires 0 <= a < |ws| => Wrote(ws[a]))
  }

  function TurnEvents(turn: Turn): seq<Event> {
    [Sent] + WriteEvents(turn.writes) + [Answered(turn.response)]
  }

  function PassEvents(turns: seq<Turn>): seq<Event>
    decreases |turns|
  {
    if turns == [] then []
    else if turns[0].response == AuthError then TurnEvents(turns[0])
    else TurnEvents(turns[0]) + PassEvents(turns[1..])
  }

  lemma {:induction false} RunWrites(st: State, ws: seq<Write>, rest: seq<Event>)
    requires IsRun(st, WriteEvents(ws) + rest)
    ensures var st' := st.(store := WriteAll(st.store, ws));
            IsRun(st', rest) && Run(st, WriteEvents(ws) + rest) == Run(st', rest)
    decreases |ws|
  {
    if ws == [] {
      assert WriteEvents(ws) + rest == rest;
    } else {
      assert (WriteEvents(ws) + rest)[1..] == WriteEvents(ws[1..]) + rest;
      RunWrites(Step(st, Wrote(ws[0])), ws[1..], rest);
    }
  }

  function Todo(st: State): seq<nat> {
    if st.pass.Sending? then st.pass.todo else []
  }

  function ServerAfter(st: State, turn: Turn): Server
    requires st.pass.Sending? && st.pass.todo != [] && st.pass.todo[0] < |st.store.queue|
  {
    if turn.response.Ok? then Accept(st.server, st.store.queue[st.pass.todo[0]], turn.response.newId) else st.server
  }

  lemma {:induction false} RunTurn(st: State, turn: Turn, rest: seq<Event>)
    requires st.pass.Sending? && st.pass.todo != [] && st.pass.todo[0] < |st.store.queue|
    requires IsRun(st, TurnEvents(turn) + rest)
    ensures var next := State(PushOne(st.store, st.pass.todo[0], turn),
                              if turn.response == AuthError then Idle else NextPass(st.pass.todo[1..]),
                              ServerAfter(st, turn));
            IsRun(next, rest) && Run(st, TurnEvents(turn) + rest) == Run(next, rest)
  {
    var es := TurnEvents(turn) + rest;
    var after := [Answered(turn.response)] + rest;
    assert es[1..] == WriteEvents(turn.writes) + after;
    RunWrites(Step(st, Sent), turn.writes, after);
    assert after[1..] == rest;
  }

  /** The loop of a pass is the run of the state machine it stands for. */
  lemma {:induction false} PassIsARun(st: State, turns: seq<Turn>)
    requires st.pass == NextPass(Todo(st)) && |Todo(st)| == |turns|
    requires IsRun(st, PassEvents(turns))
    requires forall a :: 0 <= a < |Todo(st)| ==> Todo(st)[a] < |st.store.queue|
    ensures Run(st, PassEvents(turns)).store == PushAll(st.store, Todo(st), turns)
    ensures Run(st, PassEvents(turns)).pass.Idle?
    decreases |turns|
  {
    if turns != [] {
      var stop := turns[0].response == AuthError;
      var rest := if stop then [] else PassEvents(turns[1..]);
      assert PassEvents(turns) == TurnEvents(turns[0]) + rest;
      RunTurn(st, turns[0], rest);
      if !stop {
        var next := State(PushOne(st.store, st.pass.todo[0], turns[0]), NextPass(st.pass.todo[1..]),
                          ServerAfter(st, turns[0]));
        assert Todo(next) == st.pass.todo[1..];
        PassIsARun(next, turns[1..]);
      }
    }
  }

  lemma {:induction false} TurnEventsSucceed(turns: seq<Turn>)
    requires forall a :: 0 <= a < |turns| ==> turns[a].response.Ok?
    ensures forall e :: e in PassEvents(turns) ==> Naming.Succeeds(e)
    decreases |turns|
  {
    if turns != [] {
      TurnEventsSucceed(turns[1..]);
      assert forall e :: e in WriteEvents(turns[0].writes) ==> e.Wrote?;
    }
  }

  /**
    * The whole pass, as the loop runs it, when every call is answered with an id. One renaming, which
    * sends every placeholder waiting in the queue to an id of its own that the server never gave out
    * before, explains all of it: each item the pass set out with is synced, the server holds what the queue in
    * order, so renamed, makes of it, and the local tables are the renamed old ones with the renamed
    * writes applied. What is asked is that no create made meanwhile takes an acknowledged placeholder.
    */
  lemma {:induction false} PassTheorem(st: State, turns: seq<Turn>)
    requires Inv(st) && st.pass.Idle? && |turns| == |Unsynced(st.store.queue)|
    requires forall a :: 0 <= a < |turns| ==> turns[a].response.Ok?
    requires IsRun(st, [Started] + PassEvents(turns)) && Naming.NoReuse(st, [Started] + PassEvents(turns), {})
    ensures var end := Run(st, [Started] + PassEvents(turns));
            var ren := Naming.Names(st, [Started] + PassEvents(turns));
            && end.store == PushAll(st.store, Unsynced(st.store.queue), turns)
            && |st.store.queue| <= |end.store.queue|
            && (forall i :: 0 <= i < |st.store.queue| ==> end.store.queue[i].synced)
            && Naming.Sound(ren, st) && (forall k :: Pending(st.store.queue, k) ==> k in ren)
            && Naming.Injective(ren, st.store.rows)
            && end.server.rows == Naming.ApplyAll(ren, st.server.rows, st.store.queue, Unsynced(st.store.queue))
            && end.store.rows
               == Naming.Replay(ren, Naming.View(ren, st.store.rows), [Started] + PassEvents(turns))
  {
    var es := [Started] + PassEvents(turns);
    assert es[1..] == PassEvents(turns);
    PassIsARun(Step(st, Started), turns);
    TurnEventsSucceed(turns);
    Naming.PassAppliesTheQueue(st, PassEvents(turns));
    Naming.RenamingIsInvisible(st, es);
  }

  /** SQL of the two remapping functions: every foreign key of `t` to `k` takes the new id. */
  function RenameForeign(rows: Rows, k: Key, newId: int): Rows {
    map j | j in rows :: Row(RenameRecord(map[k := newId], j.table, rows[j].values), rows[j].deleted)
  }

  function RenumberQueue(queue: seq<Item>, k: Key, newId: int, after: nat): (r: seq<Item>)
    ensures |r| == |queue|
  {
    seq(|queue|, i requires 0 <= i < |queue| =>
      if i > after && queue[i].Subject() == k then queue[i].(recordId := newId) else queue[i])
  }

  function RemapPayload(item: Item, k: Key, newId: int): Item {
    if item.synced then item else item.(payload := RenameRecord(map[k := newId], item.table, item.payload))
  }

  /** Tables no foreign key refers to need no remapping. */
  lemma {:induction false} NothingToRemap(t: Table, rec: Record, k: Key, newId: int)
    requires k.table == Transactions || k.table == DailyExpenses
    ensures RenameRecord(map[k := newId], t, rec) == rec
  {
  }

  class Sync {
    var rows: Rows
    var queue: seq<Item>
    /** The in-memory view of the queue: the positions still to be sent. */
    var pending: seq<nat>

    ghost predicate Valid() reads this { pending == Unsynced(queue) }

    ghost function Contents(): Store reads this { Store(rows, queue) }

    constructor ()
      ensures Valid() && Contents() == Store(map[], [])
    {
      rows, queue, pending := map[], [], [];
    }

    method LoadQueue()
      modifies this`pending
      ensures Valid()
    {
      pending := Unsynced(queue);
    }

    /** The first id from the clock value on that no local row of the table has. */
    method NextLocalId(t: Table, now: int) returns (id: int)
      ensures id >= now && Key(t, id) !in rows
      ensures forall x :: now <= x < id ==> Key(t, x) in rows
    {
      id := now;
      ghost var left := rows.Keys;
      while Key(t, id) in rows
        invariant id >= now
        invariant forall x :: now <= x < id ==> Key(t, x) in rows
        invariant left <= rows.Keys && forall x :: x >= id && Key(t, x) in rows ==> Key(t, x) in left
        decreases left
      {
        left := left - {Key(t, id)};
        id := id + 1;
      }
    }

    method Enqueue(t: Table, recordId: int, op: Op, payload: Record)
      modifies this`queue, this`pending
      ensures Valid() && queue == SyncRecords.Enqueue(old(queue), Write(t, op, recordId, payload))
    {
      queue := queue + [Item(t, recordId, op, payload, false, false)];
      LoadQueue();
    }

    method MarkSynced(i: nat)
      requires i < |queue|
      modifies this`queue, this`pending
      ensures Valid() && queue == SyncRecords.MarkSynced(old(queue), i)
    {
      queue := queue[i := queue[i].(synced := true)];
      LoadQueue();
    }

    method MarkConflict(i: nat)
      requires i < |queue|
      modifies this`queue, this`pending
      ensures Valid() && queue == SyncRecords.MarkConflict(old(queue), i)
    {
      queue := queue[i := queue[i].(conflict := true)];
      LoadQueue();
    }

    method WriteLocal(t: Table, op: Op, recordId: int, payload: Record)
      modifies this
      ensures Valid() && Contents() == SyncRecords.WriteLocal(old(Contents()), Write(t, op, recordId, payload))
    {
      var k := Key(t, recordId);
      if op == Delete {
        if k in rows {
          rows := rows[k := rows[k].(deleted := true)];
        }
        Enqueue(t, recordId, op, payload);
        return;
      }
      if payload == map[] {
        Enqueue(t, recordId, op, payload);
        return;
      }
      var values := if k in rows then rows[k].values + payload else payload;
      rows := rows[k := Row(values, false)];
      Enqueue(t, recordId, op, payload);
    }

    /**
      * A write whose request failed: `idFromUrl` is the id in the path, `idInData` the one in the
      * body. Without either the record is born here, under an id no row of its table has.
      */
    method WriteOffline(t: Table, op: Op, idFromUrl: Option<int>, idInData: Option<int>, data: Record, now: int)
      returns (recordId: int)
      modifies this
      ensures idFromUrl.Some? ==> recordId == idFromUrl.value
      ensures idFromUrl.None? && idInData.Some? ==> recordId == idInData.value
      ensures idFromUrl.None? && idInData.None? ==> recordId >= now && Key(t, recordId) !in old(rows)
      ensures Valid() && Contents() == SyncRecords.WriteLocal(old(Contents()), Write(t, op, recordId, data))
    {
      if idFromUrl.Some? {
        recordId := idFromUrl.value;
      } else if idInData.Some? {
        recordId := idInData.value;
      } else {
        recordId := NextLocalId(t, now);
      }
      WriteLocal(t, op, recordId, data);
    }

    /** The payloads of unsent items queued after `after` follow an id, one item at a time. */
    method RemapPayloads(k: Key, newId: int, after: nat)
      modifies this`queue
      ensures |queue| == |old(queue)|
      ensures forall j :: 0 <= j < |queue| ==>
                queue[j] == if j > after then RemapPayload(old(queue)[j], k, newId) else old(queue)[j]
    {
      var j := after + 1;
      while j < |queue|
        invariant |queue| == |old(queue)|
        invariant forall x :: 0 <= x < |queue| ==>
                    queue[x] == if after < x < j then RemapPayload(old(queue)[x], k, newId) else old(queue)[x]
      {
        if !queue[j].synced {
          var payload := RenameRecord(map[k := newId], queue[j].table, queue[j].payload);
          if payload != queue[j].payload {
            queue := queue[j := queue[j].(payload := payload)];
          }
        }
        j := j + 1;
      }
    }

    /** Foreign keys to an asset or an account that got its server id: local rows, then the queue. */
    method RemapRefs(k: Key, newId: int, after: nat)
      modifies this`rows, this`queue
      ensures rows == RenameForeign(old(rows), k, newId)
      ensures forall j :: j in old(rows) ==>
                RecordFollows(k.table, j.table, old(rows)[j].values, rows[j].values, k.id, newId)
      ensures |queue| == |old(queue)|
      ensures forall j :: after < j < |queue| && !queue[j].synced ==>
                RecordFollows(k.table, queue[j].table, old(queue)[j].payload, queue[j].payload, k.id, newId)
      ensures forall j :: 0 <= j < |queue| ==>
                queue[j] == if j > after then RemapPayload(old(queue)[j], k, newId) else old(queue)[j]
    {
      rows := RenameForeign(rows, k, newId);
      RemapPayloads(k, newId, after);
      forall t, rec
        ensures RecordFollows(k.table, t, rec, RenameRecord(map[k := newId], t, rec), k.id, newId)
      {
        RenamedFollows(k, t, rec, newId);
      }
    }

    /** The server gave the record of item `i` the id `newId`; false when the local id is taken. */
    method Adopt(i: nat, k: Key, newId: int) returns (ok: bool)
      requires i < |queue| && newId != k.id
      modifies this`rows, this`queue
      ensures ok == !IdTaken(old(rows), k, newId)
      ensures if ok then rows == RemapRows(old(rows), k, newId) && queue == RemapQueue(old(queue), k, newId, i)
              else rows == old(rows) && queue == old(queue)
      ensures ok && k in old(rows) ==> RowsFollow(old(rows), rows, k, newId)
    {
      if k in rows {
        if Key(k.table, newId) in rows {
          return false;
        }
        rows := (rows - {k})[Key(k.table, newId) := rows[k]];
      }
      queue := RenumberQueue(queue, k, newId, i);
      ghost var moved := rows;
      if k.table == Assets || k.table == Accounts {
        RemapRefs(k, newId, i);
      } else {
        forall t, rec
          ensures RenameRecord(map[k := newId], t, rec) == rec
        {
          NothingToRemap(t, rec, k, newId);
        }
      }
      assert rows == RenameForeign(moved, k, newId);
      assert queue == RemapQueue(old(queue), k, newId, i);
      if k in old(rows) {
        AckRowsFollow(old(rows), k, newId);
      }
      ok := true;
    }

    /** The code after an awaited call; `stop` says that the pass is over. */
    method OnAnswer(i: nat, item: Item, r: Response) returns (stop: bool)
      requires Valid() && i < |queue|
      modifies this
      ensures Valid() && Contents() == Answer(old(Contents()), i, item, r)
      ensures stop == (r == AuthError)
      ensures r.Ok? && item == old(queue)[i] && item.op == Create && r.newId != 0 && r.newId != item.recordId
              && item.Subject() in old(rows) && Key(item.table, r.newId) !in old(rows) ==>
                RowsFollow(old(rows), rows, item.Subject(), r.newId) && QueueFollows(old(queue), queue, i, r.newId)
    {
      if r.Ok? && item == queue[i] && item.op == Create && r.newId != 0 && r.newId != item.recordId
         && item.Subject() in rows && Key(item.table, r.newId) !in rows {
        AnswerByColumn(Contents(), i, r.newId);
      }
      stop := r == AuthError;
      match r
      case Ok(newId) =>
        if item.op == Create && newId != 0 && newId != item.recordId {
          var ok := Adopt(i, item.Subject(), newId);
          if !ok {
            return;
          }
        }
        MarkSynced(i);
      case Business => MarkConflict(i);
      case _ =>
    }

    /** The user's writes while a call is awaited. */
    method DuringAwait(ws: seq<Write>)
      requires Valid()
      modifies this
      ensures Valid() && Contents() == WriteAll(old(Contents()), ws)
    {
      ghost var was := Contents();
      var n := 0;
      assert ws[..0] == [];
      while n < |ws|
        invariant 0 <= n <= |ws| && Valid() && Contents() == WriteAll(was, ws[..n])
      {
        ghost var before := Contents();
        var w := ws[n];
        WriteLocal(w.table, w.op, w.recordId, w.payload);
        assert Contents() == SyncRecords.WriteLocal(before, w);
        assert ws[..n + 1] == ws[..n] + [w];
        WriteAllSnoc(was, ws[..n], w);
        n := n + 1;
      }
      assert ws[..n] == ws;
    }

    method PushLocal(turns: seq<Turn>)
      requires Valid() && |turns| == |Unsynced(queue)|
      modifies this
      ensures Valid() && Contents() == PushAll(old(Contents()), old(Unsynced(queue)), turns)
    {
      LoadQueue();
      var items := pending;
      ghost var was := Contents();
      var n := 0;
      while n < |items|
        invariant 0 <= n <= |items| && Valid()
        invariant |was.queue| <= |queue|
        invariant PushAll(Contents(), items[n..], turns[n..]) == PushAll(was, items, turns)
      {
        ghost var before := Contents();
        var i := items[n];
        var item := queue[i];
        DuringAwait(turns[n].writes);
        var stop := OnAnswer(i, item, turns[n].response);
        assert Contents() == PushOne(before, i, turns[n]);
        assert items[n..][1..] == items[n + 1..] && turns[n..][1..] == turns[n + 1..];
        if stop {
          return;
        }
        n := n + 1;
      }
    }
  }
}
