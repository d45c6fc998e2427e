/**
  * The cache of token versions: a table scanned and filled under a lock that is dropped around the
  * database read. First the table, then every interleaving of requests with the clock and with
  * changes of the users table.
  */
module TokenCache {
  import opened Prelude

  const TTL_MS := 5000
  const MAX_USERS: nat := 128

  datatype Entry = Entry(user: int, version: int, found: bool, expire: int)

  predicate Matches(e: Entry, user: int, version: int, now: int) {
    e.user == user && e.expire > now && e.found && version == e.version
  }

  predicate CacheHit(table: seq<Entry>, user: int, version: int, now: int) {
    exists i :: 0 <= i < |table| && Matches(table[i], user, version, now)
  }

  predicate HasUser(table: seq<Entry>, user: int) {
    exists i :: 0 <= i < |table| && table[i].user == user
  }

  predicate DistinctUsers(table: seq<Entry>) {
    forall i, j :: 0 <= i < j < |table| ==> table[i].user != table[j].user
  }

  /** The slot a result goes to: the user's own, else a new one, else one picked by the clock. */
  function Slot(table: seq<Entry>, user: int, now: nat): (slot: nat)
    requires |table| <= MAX_USERS
    ensures slot <= |table| && slot < MAX_USERS
  {
    if HasUser(table, user) then First(table, user)
    else if |table| < MAX_USERS then |table|
    else now % MAX_USERS
  }

  function First(table: seq<Entry>, user: int): (i: nat)
    requires HasUser(table, user)
    ensures i < |table| && table[i].user == user
    ensures forall j :: 0 <= j < i ==> table[j].user != user
  {
    if table[0].user == user then 0
    else
      assert exists i :: 0 <= i < |table[1..]| && table[1..][i].user == user by {
        var i :| 0 <= i < |table| && table[i].user == user;
        assert table[1..][i - 1] == table[i];
      }
      1 + First(table[1..], user)
  }

  function Put(table: seq<Entry>, user: int, version: int, found: bool, now: nat): (r: seq<Entry>)
    requires |table| <= MAX_USERS
    ensures |r| <= MAX_USERS
  {
    var slot := Slot(table, user, now);
    var e := Entry(user, version, found, now + TTL_MS);
    if slot < |table| then table[slot := e] else table + [e]
  }

  lemma {:induction false} PutKeepsUsersDistinct(table: seq<Entry>, user: int, version: int, found: bool, now: nat)
    requires |table| <= MAX_USERS && DistinctUsers(table)
    ensures DistinctUsers(Put(table, user, version, found, now))
  {
  }

  /**
    * What is stored for a user is what the cache answers for that user, for the next five seconds; of what it
    * answers for others it forgets at most one user, and only when 128 others are cached.
    */
  lemma {:induction false} PutIsAnswered(table: seq<Entry>, user: int, version: int, found: bool, now: nat, u: int,
                                         v: int, later: int)
    requires |table| <= 128 && DistinctUsers(table)
    ensures var r := Put(table, user, version, found, now);
            && |r| <= 128 && (CacheHit(r, user, v, later) <==> found && v == version && later < now + 5000)
            && (u != user && CacheHit(r, u, v, later) ==> CacheHit(table, u, v, later))
            && (u != user && CacheHit(table, u, v, later) && !CacheHit(r, u, v, later) ==>
                  |table| == 128 && !HasUser(table, user))
  {
    var r, slot := Put(table, user, version, found, now), Slot(table, user, now);
    assert r[slot] == Entry(user, version, found, now + 5000);
    PutKeepsUsersDistinct(table, user, version, found, now);
    assert forall i :: 0 <= i < |r| && i != slot ==> r[i] == table[i] && r[i].user != user;
    if u != user && CacheHit(table, u, v, later) {
      var i :| 0 <= i < |table| && Matches(table[i], u, v, later);
      assert i != slot ==> Matches(r[i], u, v, later);
    }
  }

  class Cache {
    const entries: array<Entry>
    var count: nat

    ghost predicate Valid() reads this { entries.Length == MAX_USERS && count <= MAX_USERS }

    ghost function Table(): seq<Entry>
      reads this, entries
      requires Valid()
    {
      entries[..count]
    }

    constructor ()
      ensures Valid() && Table() == [] && fresh(entries)
    {
      entries := new Entry[MAX_USERS](_ => Entry(0, 0, false, 0));
      count := 0;
    }

    method Lookup(user: int, version: int, now: int) returns (hit: bool)
      requires Valid()
      ensures hit <==> CacheHit(Table(), user, version, now)
    {
      var i := 0;
      while i < count
        invariant 0 <= i <= count
        invariant forall j :: 0 <= j < i ==> !Matches(entries[j], user, version, now)
      {
        var e := entries[i];
        if e.user == user && e.expire > now && e.found && version == e.version {
          assert Table()[i] == e;
          return true;
        }
        i := i + 1;
      }
      hit := false;
    }

    method Store(user: int, version: int, found: bool, now: nat)
      requires Valid()
      modifies this, entries
      ensures Valid() && Table() == Put(old(Table()), user, version, found, now)
    {
      ghost var was := Table();
      var slot, i := count, 0;
      while i < count
        invariant 0 <= i <= count && slot == count
        invariant forall j :: 0 <= j < i ==> entries[j].user != user
      {
        if entries[i].user == user {
          slot := i;
          break;
        }
        i := i + 1;
      }
      assert slot < count ==> was[slot].user == user && HasUser(was, user);
      assert slot == count ==> !HasUser(was, user);
      if slot == count {
        if count < MAX_USERS {
          count := count + 1;
        } else {
          slot := now % MAX_USERS;
        }
      }
      assert slot == Slot(was, user, now);
      entries[slot] := Entry(user, version, found, now + TTL_MS);
      assert Table() == Put(was, user, version, found, now);
    }

    /**
      * `jwt_validate_version_num` without other threads in between: `dbVersion` is what the database
      * answers, None for a missing user or a failed query.
      */
    method Validate(user: int, version: int, now: nat, dbVersion: Option<int>) returns (valid: bool)
      requires Valid()
      modifies this, entries
      ensures Valid()
      ensures valid <==> CacheHit(old(Table()), user, version, now) || dbVersion == Some(version)
      ensures Table() == if CacheHit(old(Table()), user, version, now) then old(Table())
                         else Put(old(Table()), user, if dbVersion.Some? then dbVersion.value else 0,
                                  dbVersion.Some?, now)
    {
      var hit := Lookup(user, version, now);
      if hit {
        return true;
      }
      var found, current := false, 0;
      if dbVersion.Some? {
        found, current := true, dbVersion.value;
      }
      Store(user, current, found, now);
      valid := found && version == current;
    }
  }
}

/** Requests, clock ticks and version changes in any order. Each step holds the lock once at most. */
module TokenProtocol {
  import opened TokenCache

  /** The users table at an instant. */
  datatype Instant = Instant(time: int, db: map<int, int>)

  /** What a decision rests on: an entry of the cache, a query that failed, or the database at one instant. */
  datatype Basis = ByCache | ByFailure | ByRead(at: nat)

  /** `now` is the clock as the request captured it. */
  datatype Request =
    | Captured(user: int, version: int, now: int)
    | Missed(user: int, version: int, now: int)
    | HasRead(user: int, version: int, now: int, found: bool, dbVersion: int, basis: Basis)
    | Done(user: int, version: int, now: int, accepted: bool, basis: Basis)

  /** `hist` lists every database state, with the clock at the time; the last one is current. */
  datatype State = State(table: seq<Entry>, requests: map<nat, Request>, hist: seq<Instant>) {
    function Now(): int requires hist != [] { hist[|hist| - 1].time }
    function Db(): map<int, int> requires hist != [] { hist[|hist| - 1].db }
  }

  datatype Event =
    | Tick(ms: nat)
    | SetVersion(user: int, version: int)
    | RemoveUser(user: int)
    | Begin(r: nat, user: int, version: int)
    | Look(r: nat)
    | Read(r: nat, failed: bool)
    | Store(r: nat)

  predicate CanStep(st: State, e: Event) {
    st.hist != [] &&
    match e
    case Begin(r, _, _) => r !in st.requests
    case Look(r) => r in st.requests && st.requests[r].Captured?
    case Read(r, _) => r in st.requests && st.requests[r].Missed?
    case Store(r) => r in st.requests && st.requests[r].HasRead? && st.requests[r].now >= 0 && |st.table| <= MAX_USERS
    case _ => true
  }

  function Step(st: State, e: Event): State
    requires CanStep(st, e)
  {
    match e
    case Tick(ms) => st.(hist := st.hist + [Instant(st.Now() + ms, st.Db())])
    case SetVersion(u, v) => st.(hist := st.hist + [Instant(st.Now(), st.Db()[u := v])])
    case RemoveUser(u) => st.(hist := st.hist + [Instant(st.Now(), st.Db() - {u})])
    case Begin(r, u, v) => st.(requests := st.requests[r := Captured(u, v, st.Now())])
    case Look(r) =>
      var q := st.requests[r];
      st.(requests := st.requests[r :=
        if CacheHit(st.table, q.user, q.version, q.now) then Done(q.user, q.version, q.now, true, ByCache)
        else Missed(q.user, q.version, q.now)])
    case Read(r, failed) =>
      var q := st.requests[r];
      var found := !failed && q.user in st.Db();
      st.(requests := st.requests[r :=
        HasRead(q.user, q.version, q.now, found, if found then st.Db()[q.user] else 0,
                if failed then ByFailure else ByRead(|st.hist| - 1))])
    case Store(r) =>
      var q := st.requests[r];
      st.(table := Put(st.table, q.user, q.dbVersion, q.found, q.now),
          requests := st.requests[r :=
            Done(q.user, q.version, q.now, q.found && q.version == q.dbVersion, q.basis)])
  }

  ghost predicate IsRun(st: State, es: seq<Event>)
    decreases |es|
  {
    es == [] || (CanStep(st, es[0]) && IsRun(Step(st, es[0]), es[1..]))
  }

  ghost function Run(st: State, es: seq<Event>): State
    requires IsRun(st, es)
    decreases |es|
  {
    if es == [] then st else Run(Step(st, es[0]), es[1..])
  }

  // ---------------------------------------------------------------------------------------
  // The invariant

  predicate HeldAt(hist: seq<Instant>, i: int, user: int, version: int) {
    0 <= i < |hist| && user in hist[i].db && hist[i].db[user] == version
  }

  /** The user's version was `version` at some instant not before `t`. */
  ghost predicate HeldSince(hist: seq<Instant>, user: int, version: int, t: int) {
    exists i :: HeldAt(hist, i, user, version) && hist[i].time >= t
  }

  /** What the request found is what the database held when it read it. */
  predicate FoundAt(hist: seq<Instant>, basis: Basis, user: int, found: bool, dbVersion: int, now: int) {
    match basis
    case ByCache => false
    case ByFailure => !found
    case ByRead(i) => i < |hist| && hist[i].time >= now && (found <==> user in hist[i].db)
                      && (found ==> hist[i].db[user] == dbVersion)
  }

  ghost predicate RequestOk(st: State, q: Request) {
    && st.hist != [] && 0 <= q.now <= st.Now()
    && match q
       case HasRead(u, _, now, found, dbVersion, basis) => FoundAt(st.hist, basis, u, found, dbVersion, now)
       case Done(u, v, now, accepted, basis) =>
         (match basis
          case ByCache => accepted && HeldSince(st.hist, u, v, now - TTL_MS + 1)
          case ByFailure => !accepted
          case ByRead(i) => i < |st.hist| && st.hist[i].time >= now && (accepted <==> HeldAt(st.hist, i, u, v)))
       case _ => true
  }

  ghost predicate Inv(st: State) {
    && st.hist != [] && st.Now() >= 0
    && (forall i, j :: 0 <= i <= j < |st.hist| ==> st.hist[i].time <= st.hist[j].time)
    && |st.table| <= MAX_USERS && DistinctUsers(st.table)
    && (forall i :: 0 <= i < |st.table| && st.table[i].found ==>
          HeldSince(st.hist, st.table[i].user, st.table[i].version, st.table[i].expire - TTL_MS))
    && (forall r :: r in st.requests ==> RequestOk(st, st.requests[r]))
  }

  /** The cache starts empty. */
  lemma {:induction false} StartsWell(time: nat, db: map<int, int>)
    ensures Inv(State([], map[], [Instant(time, db)]))
  {
  }

  /** What was once the case stays the case in a longer history. */
  lemma {:induction false} HistoryGrows(hist: seq<Instant>, more: Instant)
    ensures forall u, v, t :: HeldSince(hist, u, v, t) ==> HeldSince(hist + [more], u, v, t)
  {
    forall u, v, t | HeldSince(hist, u, v, t)
      ensures HeldSince(hist + [more], u, v, t)
    {
      var i :| HeldAt(hist, i, u, v) && hist[i].time >= t;
      assert HeldAt(hist + [more], i, u, v);
    }
  }

  lemma {:induction false} RequestStaysOk(st: State, q: Request, more: Instant)
    requires RequestOk(st, q) && more.time >= st.Now()
    ensures RequestOk(st.(hist := st.hist + [more]), q)
  {
    HistoryGrows(st.hist, more);
    assert forall i :: 0 <= i < |st.hist| ==> (st.hist + [more])[i] == st.hist[i];
  }

  lemma {:induction false} HistoryKeepsInv(st: State, more: Instant)
    requires Inv(st) && more.time >= st.Now()
    ensures Inv(st.(hist := st.hist + [more]))
  {
    HistoryGrows(st.hist, more);
    forall r | r in st.requests
      ensures RequestOk(st.(hist := st.hist + [more]), st.requests[r])
    {
      RequestStaysOk(st, st.requests[r], more);
    }
  }

  lemma {:induction false} LookKeepsInv(st: State, r: nat)
    requires Inv(st) && CanStep(st, Look(r))
    ensures Inv(Step(st, Look(r)))
  {
    var q := st.requests[r];
    if CacheHit(st.table, q.user, q.version, q.now) {
      var i :| 0 <= i < |st.table| && Matches(st.table[i], q.user, q.version, q.now);
      var j :| HeldAt(st.hist, j, q.user, q.version) && st.hist[j].time >= st.table[i].expire - TTL_MS;
      assert HeldSince(st.hist, q.user, q.version, q.now - TTL_MS + 1);
    }
    var st' := Step(st, Look(r));
    assert RequestOk(st', st'.requests[r]);
    assert forall x :: x in st.requests && x != r ==> RequestOk(st', st.requests[x]);
  }

  lemma {:induction false} ReadKeepsInv(st: State, r: nat, failed: bool)
    requires Inv(st) && CanStep(st, Read(r, failed))
    ensures Inv(Step(st, Read(r, failed)))
  {
    var st' := Step(st, Read(r, failed));
    assert RequestOk(st', st'.requests[r]);
    assert forall x :: x in st.requests && x != r ==> RequestOk(st', st.requests[x]);
  }

  lemma {:induction false} StoreKeepsInv(st: State, r: nat)
    requires Inv(st) && CanStep(st, Store(r))
    ensures Inv(Step(st, Store(r)))
  {
    var q, st' := st.requests[r], Step(st, Store(r));
    PutKeepsUsersDistinct(st.table, q.user, q.dbVersion, q.found, q.now);
    assert RequestOk(st, q);
    if q.found {
      assert HeldAt(st.hist, q.basis.at, q.user, q.dbVersion);
    }
    var slot := Slot(st.table, q.user, q.now);
    assert forall i :: 0 <= i < |st'.table| && i != slot ==> st'.table[i] == st.table[i];
    assert RequestOk(st', st'.requests[r]);
    assert forall x :: x in st.requests && x != r ==> RequestOk(st', st.requests[x]);
  }

  lemma {:induction false} StepKeepsInv(st: State, e: Event)
    requires Inv(st) && CanStep(st, e)
    ensures Inv(Step(st, e))
  {
    match e
    case Tick(ms) => HistoryKeepsInv(st, Instant(st.Now() + ms, st.Db()));
    case SetVersion(u, v) => HistoryKeepsInv(st, Instant(st.Now(), st.Db()[u := v]));
    case RemoveUser(u) => HistoryKeepsInv(st, Instant(st.Now(), st.Db() - {u}));
    case Begin(r, u, v) => assert forall x :: x in st.requests ==> RequestOk(Step(st, e), st.requests[x]);
    case Look(r) => LookKeepsInv(st, r);
    case Read(r, failed) => ReadKeepsInv(st, r, failed);
    case Store(r) => StoreKeepsInv(st, r);
  }

  lemma {:induction false} RunKeepsInv(st: State, es: seq<Event>)
    requires Inv(st) && IsRun(st, es)
    ensures Inv(Run(st, es))
    decreases |es|
  {
    if es != [] {
      StepKeepsInv(st, es[0]);
      RunKeepsInv(Step(st, es[0]), es[1..]);
    }
  }

  // ---------------------------------------------------------------------------------------
  // What it means

  /** No request is ever stuck: until it is decided, its own next step can be taken. */
  lemma {:induction false} RequestsGoOn(st: State, r: nat, failed: bool)
    requires Inv(st)
    ensures r !in st.requests ==> forall u, v :: CanStep(st, Begin(r, u, v))
    ensures r in st.requests && st.requests[r].Captured? ==> CanStep(st, Look(r))
    ensures r in st.requests && st.requests[r].Missed? ==> CanStep(st, Read(r, failed))
    ensures r in st.requests && st.requests[r].HasRead? ==> CanStep(st, Store(r))
  {
    if r in st.requests {
      assert RequestOk(st, st.requests[r]);
    }
  }

  /** An accepted token carried the user's version at an instant less than five seconds before the request. */
  lemma {:induction false} AcceptedWasCurrent(st: State, es: seq<Event>, r: nat)
    requires Inv(st) && IsRun(st, es)
    requires r in Run(st, es).requests && Run(st, es).requests[r].Done? && Run(st, es).requests[r].accepted
    ensures var end := Run(st, es);
            var q := end.requests[r];
            exists i :: HeldAt(end.hist, i, q.user, q.version) && end.hist[i].time > q.now - 5000
  {
    RunKeepsInv(st, es);
    var end := Run(st, es);
    var q := end.requests[r];
    if q.basis.ByRead? {
      assert HeldAt(end.hist, q.basis.at, q.user, q.version);
    }
    assert HeldSince(end.hist, q.user, q.version, q.now - TTL_MS + 1);
    var i :| HeldAt(end.hist, i, q.user, q.version) && end.hist[i].time >= q.now - TTL_MS + 1;
  }

  /** A version change only ever raises the version the user had before. */
  ghost predicate Growing(hist: seq<Instant>) {
    forall i, j, u :: 0 <= i <= j < |hist| && u in hist[i].db && u in hist[j].db ==> hist[i].db[u] <= hist[j].db[u]
  }

  /** A version change that only raises: above all the user ever had. */
  ghost predicate Raises(st: State, e: Event) {
    e.SetVersion? ==> forall i :: 0 <= i < |st.hist| && e.user in st.hist[i].db ==> st.hist[i].db[e.user] <= e.version
  }

  /** All version changes of the run raise. */
  ghost predicate AllRaise(st: State, es: seq<Event>)
    requires IsRun(st, es)
    decreases |es|
  {
    es == [] || (Raises(st, es[0]) && AllRaise(Step(st, es[0]), es[1..]))
  }

  lemma {:induction false} StepKeepsGrowing(st: State, e: Event)
    requires Inv(st) && CanStep(st, e) && Growing(st.hist) && Raises(st, e)
    ensures Growing(Step(st, e).hist)
  {
    var hist, hist' := st.hist, Step(st, e).hist;
    assert forall i :: 0 <= i < |hist| ==> hist'[i] == hist[i];
  }

  /** Then the history grows throughout. */
  lemma {:induction false} RunKeepsGrowing(st: State, es: seq<Event>)
    requires Inv(st) && IsRun(st, es) && Growing(st.hist) && AllRaise(st, es)
    ensures Growing(Run(st, es).hist)
    decreases |es|
  {
    if es != [] {
      StepKeepsGrowing(st, es[0]);
      StepKeepsInv(st, es[0]);
      RunKeepsGrowing(Step(st, es[0]), es[1..]);
    }
  }

  /**
    * When versions are only ever raised, a token whose version was surpassed five seconds or more before
    * the request is refused.
    */
  lemma {:induction false} RevokedIsRefused(st: State, es: seq<Event>, r: nat, j: nat)
    requires Inv(st) && IsRun(st, es) && Growing(st.hist) && AllRaise(st, es)
    requires r in Run(st, es).requests && Run(st, es).requests[r].Done? && j < |Run(st, es).hist|
    requires var end := Run(st, es);
             var q := end.requests[r];
             q.user in end.hist[j].db && end.hist[j].db[q.user] > q.version && end.hist[j].time <= q.now - 5000
    ensures !Run(st, es).requests[r].accepted
  {
    RunKeepsInv(st, es);
    RunKeepsGrowing(st, es);
    if Run(st, es).requests[r].accepted {
      AcceptedWasCurrent(st, es, r);
    }
  }

  /** Instant `n` and all later ones do not know the user. */
  ghost predicate GoneFrom(hist: seq<Instant>, n: nat, user: int) {
    n < |hist| && forall i :: n <= i < |hist| ==> user !in hist[i].db
  }

  lemma {:induction false} GoneStays(st: State, es: seq<Event>, n: nat, user: int)
    requires Inv(st) && IsRun(st, es) && GoneFrom(st.hist, n, user)
    requires forall e :: e in es && e.SetVersion? ==> e.user != user
    ensures var hist := Run(st, es).hist;
            GoneFrom(hist, n, user) && |st.hist| <= |hist| && hist[..|st.hist|] == st.hist
    decreases |es|
  {
    if es != [] {
      StepKeepsInv(st, es[0]);
      var next := Step(st, es[0]);
      assert next.hist[..|st.hist|] == st.hist;
      GoneStays(next, es[1..], n, user);
      assert Run(next, es[1..]).hist[..|st.hist|] == next.hist[..|st.hist|];
    }
  }

  /** A removed user, unless created anew, is refused from five seconds later on, whatever the version. */
  lemma {:induction false} RemovedIsRefused(st: State, user: int, es: seq<Event>, r: nat)
    requires Inv(st) && IsRun(st, [RemoveUser(user)] + es)
    requires forall e :: e in es && e.SetVersion? ==> e.user != user
    requires var end := Run(st, [RemoveUser(user)] + es);
             && r in end.requests && end.requests[r].Done?
             && end.requests[r].user == user && end.requests[r].now >= st.Now() + 5000
    ensures !Run(st, [RemoveUser(user)] + es).requests[r].accepted
  {
    var all := [RemoveUser(user)] + es;
    assert all[1..] == es;
    var gone, end := Step(st, RemoveUser(user)), Run(st, all);
    StepKeepsInv(st, RemoveUser(user));
    GoneStays(gone, es, |st.hist|, user);
    assert end.hist[..|gone.hist|] == gone.hist;
    forall i | 0 <= i < |st.hist|
      ensures end.hist[i].time <= st.Now()
    {
      assert end.hist[i] == gone.hist[i] == st.hist[i];
    }
    if end.requests[r].accepted {
      AcceptedWasCurrent(st, all, r);
    }
  }

  /** Somewhere in the run request `r` makes the read that `basis` stands for. */
  ghost predicate ReadDuring(st: State, es: seq<Event>, r: nat, basis: Basis)
    requires IsRun(st, es)
    decreases |es|
  {
    es != [] && ((es[0].Read? && es[0].r == r && basis == if es[0].failed then ByFailure else ByRead(|st.hist| - 1))
                 || ReadDuring(Step(st, es[0]), es[1..], r, basis))
  }

  predicate HasBasis(st: State, r: nat) { r in st.requests && (st.requests[r].HasRead? || st.requests[r].Done?) }

  lemma {:induction false} BasisStays(st: State, es: seq<Event>, r: nat)
    requires IsRun(st, es) && HasBasis(st, r)
    ensures HasBasis(Run(st, es), r) && Run(st, es).requests[r].basis == st.requests[r].basis
    decreases |es|
  {
    if es != [] {
      BasisStays(Step(st, es[0]), es[1..], r);
    }
  }

  /** A request decided in the run by other than the cache has read the database in it, itself. */
  lemma {:induction false} BasisIsOwnRead(st: State, es: seq<Event>, r: nat)
    requires IsRun(st, es) && !HasBasis(st, r) && HasBasis(Run(st, es), r) && !Run(st, es).requests[r].basis.ByCache?
    ensures ReadDuring(st, es, r, Run(st, es).requests[r].basis)
    decreases |es|
  {
    var next := Step(st, es[0]);
    if HasBasis(next, r) {
      BasisStays(next, es[1..], r);
    } else {
      BasisIsOwnRead(next, es[1..], r);
    }
  }

  /**
    * In every interleaving a request that is refused has made its own read of the database, no earlier
    * than it began, and either that query failed or the version was not the user's at that instant.
    */
  lemma {:induction false} RefusalRestsOnOwnRead(st: State, es: seq<Event>, r: nat)
    requires Inv(st) && IsRun(st, es) && r !in st.requests
    requires r in Run(st, es).requests && Run(st, es).requests[r].Done? && !Run(st, es).requests[r].accepted
    ensures var end := Run(st, es);
            var q := end.requests[r];
            && ReadDuring(st, es, r, q.basis)
            && (q.basis.ByFailure?
                || (q.basis.ByRead? && q.basis.at < |end.hist| && end.hist[q.basis.at].time >= q.now
                    && !HeldAt(end.hist, q.basis.at, q.user, q.version)))
  {
    RunKeepsInv(st, es);
    assert RequestOk(Run(st, es), Run(st, es).requests[r]);
    BasisIsOwnRead(st, es, r);
  }

  /** So a version that stays in force from the request on is accepted, whatever is cached, unless its query failed. */
  lemma {:induction false} CurrentIsAccepted(st: State, es: seq<Event>, r: nat)
    requires Inv(st) && IsRun(st, es) && r !in st.requests
    requires r in Run(st, es).requests && Run(st, es).requests[r].Done? && !Run(st, es).requests[r].basis.ByFailure?
    requires var end := Run(st, es);
             var q := end.requests[r];
             forall i :: 0 <= i < |end.hist| && end.hist[i].time >= q.now ==> HeldAt(end.hist, i, q.user, q.version)
    ensures Run(st, es).requests[r].accepted
  {
    if !Run(st, es).requests[r].accepted {
      RefusalRestsOnOwnRead(st, es, r);
    }
  }

  /** `end` is where some run from `st` leads. */
  ghost predicate Reaches(st: State, end: State) {
    exists es :: IsRun(st, es) && Run(st, es) == end
  }

  lemma {:induction false} ReachesInOneMore(st: State, e: Event, end: State)
    requires CanStep(st, e) && Reaches(Step(st, e), end)
    ensures Reaches(st, end)
  {
    var es :| IsRun(Step(st, e), es) && Run(Step(st, e), es) == end;
    assert ([e] + es)[1..] == es;
    assert IsRun(st, [e] + es) && Run(st, [e] + es) == end;
  }

  /** The state in which the old version is cached though the new one is in force. */
  function StaleState(user: int): State {
    State([Entry(user, 0, true, TTL_MS)], map[1 := Done(user, 0, 0, true, ByRead(0))],
          [Instant(0, map[user := 0]), Instant(0, map[user := 1])])
  }

  function LateState(user: int): State {
    var st := StaleState(user);
    st.(hist := st.hist + [Instant(TTL_MS - 1, map[user := 1])],
        requests := st.requests[2 := Done(user, 0, TTL_MS - 1, true, ByCache)])
  }

  /** Request 1 has read the old version, and has not stored it yet. */
  function ReadState(user: int): State {
    State([], map[1 := HasRead(user, 0, 0, true, 0, ByRead(0))], [Instant(0, map[user := 0])])
  }

  lemma {:induction false} ReadStateIsReached(user: int, end: State)
    requires Reaches(ReadState(user), end)
    ensures Reaches(State([], map[], [Instant(0, map[user := 0])]), end)
  {
    var hist := [Instant(0, map[user := 0])];
    var s1 := State([], map[1 := Captured(user, 0, 0)], hist);
    var s2 := State([], map[1 := Missed(user, 0, 0)], hist);
    assert Step(s2, Read(1, false)) == ReadState(user);
    ReachesInOneMore(s2, Read(1, false), end);
    assert Step(s1, Look(1)) == s2;
    ReachesInOneMore(s1, Look(1), end);
    assert Step(State([], map[], hist), Begin(1, user, 0)) == s1;
    ReachesInOneMore(State([], map[], hist), Begin(1, user, 0), end);
  }

  lemma {:induction false} StaleStateIsReached(user: int, end: State)
    requires Reaches(StaleState(user), end)
    ensures Reaches(State([], map[], [Instant(0, map[user := 0])]), end)
  {
    var s3 := ReadState(user);
    var s4 := s3.(hist := s3.hist + [Instant(0, map[user := 1])]);
    assert Step(s4, Store(1)) == StaleState(user);
    ReachesInOneMore(s4, Store(1), end);
    assert map[user := 0][user := 1] == map[user := 1];
    assert Step(s3, SetVersion(user, 1)) == s4;
    ReachesInOneMore(s3, SetVersion(user, 1), end);
    ReadStateIsReached(user, end);
  }

  /**
    * The bound is exact: a token can pass 4999 ms after its revocation. Request 1 reads the old
    * version just before it is raised, stores it just after, and request 2 hits that entry.
    */
  lemma {:induction false} StaleAcceptance(user: int)
    ensures Reaches(State([], map[], [Instant(0, map[user := 0])]), LateState(user))
    ensures LateState(user).requests[2] == Done(user, 0, 4999, true, ByCache)
    ensures LateState(user).hist[1] == Instant(0, map[user := 1])
  {
    var s5, end := StaleState(user), LateState(user);
    var s6 := s5.(hist := s5.hist + [Instant(TTL_MS - 1, map[user := 1])]);
    var s7 := s6.(requests := s6.requests[2 := Captured(user, 0, TTL_MS - 1)]);
    assert Matches(s7.table[0], user, 0, TTL_MS - 1);
    assert Step(s7, Look(2)) == end;
    assert IsRun(end, []) && Run(end, []) == end;
    ReachesInOneMore(s7, Look(2), end);
    assert Step(s6, Begin(2, user, 0)) == s7;
    ReachesInOneMore(s6, Begin(2, user, 0), end);
    assert Step(s5, Tick(TTL_MS - 1)) == s6;
    ReachesInOneMore(s5, Tick(TTL_MS - 1), end);
    StaleStateIsReached(user, end);
  }
}
