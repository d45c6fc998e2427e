/**
  * The two limiters with their threads. A thread reads the clock, then waits for the mutex, and the
  * requests are served in the order in which the mutex is taken.
  */
module RateLimitRuns {
  import opened Prelude
  import opened Arith
  import opened RateLimit
  import opened RateLimitWindow

  /** `waiting` holds, by thread, what was captured; `locked` the requests in lock order. */
  datatype World<K> = World(clock: int, waiting: map<nat, Req<K>>, locked: seq<Req<K>>)

  datatype Event<K> =
    | Ticked(seconds: nat)                // time passes
    | Captured(tid: nat, key: K)          // a thread reads the clock for its request
    | Locked(tid: nat)                    // it gets the mutex and is served

  predicate CanStep<K>(w: World<K>, e: Event<K>) {
    match e
    case Ticked(_) => true
    case Captured(tid, _) => tid !in w.waiting
    case Locked(tid) => tid in w.waiting
  }

  function Step<K>(w: World<K>, e: Event<K>): World<K>
    requires CanStep(w, e)
  {
    match e
    case Ticked(seconds) => w.(clock := w.clock + seconds)
    case Captured(tid, key) => w.(waiting := w.waiting[tid := Req(key, w.clock)])
    case Locked(tid) => World(w.clock, w.waiting - {tid}, w.locked + [w.waiting[tid]])
  }

  predicate IsRun<K>(w: World<K>, es: seq<Event<K>>)
    decreases |es|
  {
    es == [] || (CanStep(w, es[0]) && IsRun(Step(w, es[0]), es[1..]))
  }

  function Run<K>(w: World<K>, es: seq<Event<K>>): World<K>
    requires IsRun(w, es)
    decreases |es|
  {
    if es == [] then w else Run(Step(w, es[0]), es[1..])
  }

  /** No thread of the run gets the mutex more than `d` seconds after it read the clock. */
  predicate Prompt<K>(w: World<K>, es: seq<Event<K>>, d: nat)
    requires IsRun(w, es)
    decreases |es|
  {
    es == [] || ((es[0].Locked? ==> w.clock <= w.waiting[es[0].tid].now + d) && Prompt(Step(w, es[0]), es[1..], d))
  }

  function Start<K>(clock: int): World<K> { World(clock, map[], []) }

  // ---------------------------------------------------------------------------------------
  // The lag is the wait

  ghost predicate TimesOk<K>(w: World<K>, start: int, d: nat) {
    && Lagged(w.locked, d)
    && (forall i :: 0 <= i < |w.locked| ==> start <= w.locked[i].now <= w.clock)
    && (forall tid :: tid in w.waiting ==> start <= w.waiting[tid].now <= w.clock)
    && start <= w.clock
  }

  /** In lock order times step back by no more than the longest wait for the mutex. */
  lemma {:induction false} WaitBoundsLag<K>(w: World<K>, es: seq<Event<K>>, start: int, d: nat)
    requires TimesOk(w, start, d) && IsRun(w, es) && Prompt(w, es, d)
    ensures TimesOk(Run(w, es), start, d)
    decreases |es|
  {
    if es != [] {
      WaitBoundsLag(Step(w, es[0]), es[1..], start, d);
    }
  }

  // ---------------------------------------------------------------------------------------
  // The two limiters

  /** A path and a client address, as far as the ring stores and compares them: 63 bytes of each. */
  datatype Route = Route(path: string, ip: string)

  function Cut(s: string): string { if |s| <= 63 then s else s[..63] }

  function RouteKey(path: string, ip: string): Route {
    Route(Cut(path), Cut(if ip == "" then "127.0.0.1" else ip))
  }

  /** The two agree as far as 63 characters go. */
  predicate SameFor63(s: string, t: string) { s == t || (|s| >= 63 && |t| >= 63 && s[..63] == t[..63]) }

  /** Requests count together exactly if path and address agree so far; without an address it is the local one. */
  lemma {:induction false} CountTogetherExactly(path: string, ip: string, path': string, ip': string)
    ensures var a, a' := if ip == "" then "127.0.0.1" else ip, if ip' == "" then "127.0.0.1" else ip';
            RouteKey(path, ip) == RouteKey(path', ip') <==> SameFor63(path, path') && SameFor63(a, a')
  {
    SameCutExactly(path, path');
    SameCutExactly(if ip == "" then "127.0.0.1" else ip, if ip' == "" then "127.0.0.1" else ip');
  }

  lemma {:induction false} SameCutExactly(s: string, t: string)
    ensures Cut(s) == Cut(t) <==> SameFor63(s, t)
  {
    if |s| <= 63 {
      assert s[..|s|] == s;
    }
    if |t| <= 63 {
      assert t[..|t|] == t;
    }
  }

  /** Different addresses, each short enough to be told apart. */
  ghost predicate Addresses(ips: seq<string>) {
    && (forall i :: 0 <= i < |ips| ==> 0 < |ips[i]| < 63)
    && (forall i, j :: 0 <= i < j < |ips| ==> ips[i] != ips[j])
  }

  function RouteKeys(path: string, ips: seq<string>): (keys: seq<Route>)
    ensures |keys| == |ips| && forall i :: 0 <= i < |ips| ==> keys[i] == RouteKey(path, ips[i])
  {
    seq(|ips|, i requires 0 <= i < |ips| => RouteKey(path, ips[i]))
  }

  lemma {:induction false} AddressesAreKeys(path: string, ips: seq<string>)
    requires Addresses(ips)
    ensures var keys := RouteKeys(path, ips); forall i, j :: 0 <= i < j < |keys| ==> keys[i] != keys[j]
  {
    forall i, j | 0 <= i < j < |ips|
      ensures RouteKey(path, ips[i]) != RouteKey(path, ips[j])
    {
      CountTogetherExactly(path, ips[i], path, ips[j]);
    }
  }

  function AuthConfig(): Config<Route> { Config(1024, 10, (e: Entry<Route>) => e.ts == 0) }

  function McpConfig(): Config<int> { Config(256, 120, (e: Entry<int>) => e.key == 0) }

  /** As many shares as fit. */
  function Room<K>(c: Config<K>, d: nat): (k: nat)
    requires d <= WINDOW && c.limit > 0
    ensures k * (c.limit * Shares(d)) <= c.capacity
    ensures c.limit * Shares(d) > 0
  {
    var share := c.limit * Shares(d);
    MulOrder(c.limit, 1, Shares(d));
    DivBetween(c.capacity, share, c.capacity / share);
    Commute(share, c.capacity / share);
    c.capacity / share
  }

  lemma {:induction false} SpanLimit<K(!new)>(c: Config<K>, reqs: seq<Req<K>>, d: nat, key: K, lo: int)
    requires c.capacity > 0 && c.limit > 0 && d <= WINDOW
    requires Lagged(reqs, d) && NeverUnset(c, reqs) && FewKeys(reqs, Room(c, d), d)
    ensures CountIn(ServeAll(c, reqs).admitted, key, lo, lo + WINDOW - d) <= c.limit
  {
    RunIsExact(c, reqs, Room(c, d), d);
    assert InSpan(ServeAll(c, reqs).admitted, key, lo, WINDOW - d) <= c.limit;
  }

  /**
    * In a run whose threads wait at most `d` seconds, with few enough active (path, address) pairs
    * - 102 without a wait, 51 with waits -, no closed interval of 60 - d seconds admits more than
    * 10 requests of a pair.
    */
  lemma {:induction false} AuthLimit(clock: int, es: seq<Event<Route>>, d: nat, path: string, ip: string, lo: int)
    requires clock > 0 && d <= WINDOW && IsRun(Start(clock), es) && Prompt(Start(clock), es, d)
    requires FewKeys(Run(Start(clock), es).locked, Room(AuthConfig(), d), d)
    ensures CountIn(ServeAll(AuthConfig(), Run(Start(clock), es).locked).admitted, RouteKey(path, ip), lo, lo + 60 - d)
            <= 10
  {
    WaitBoundsLag(Start(clock), es, clock, d);
    SpanLimit(AuthConfig(), Run(Start(clock), es).locked, d, RouteKey(path, ip), lo);
  }

  /** The same for users: 120 requests of each, as long as two are active without a wait, or one with waits. */
  lemma {:induction false} McpLimit(clock: int, es: seq<Event<int>>, d: nat, user: int, lo: int)
    requires d <= WINDOW && IsRun(Start(clock), es) && Prompt(Start(clock), es, d)
    requires forall e :: e in es && e.Captured? ==> e.key > 0
    requires FewKeys(Run(Start(clock), es).locked, Room(McpConfig(), d), d)
    ensures CountIn(ServeAll(McpConfig(), Run(Start(clock), es).locked).admitted, user, lo, lo + 60 - d) <= 120
  {
    WaitBoundsLag(Start(clock), es, clock, d);
    KeysArePositive(Start(clock), es);
    SpanLimit(McpConfig(), Run(Start(clock), es).locked, d, user, lo);
  }

  lemma {:induction false} KeysArePositive(w: World<int>, es: seq<Event<int>>)
    requires IsRun(w, es) && forall e :: e in es && e.Captured? ==> e.key > 0
    requires forall tid :: tid in w.waiting ==> w.waiting[tid].key > 0
    requires forall i :: 0 <= i < |w.locked| ==> w.locked[i].key > 0
    ensures forall i :: 0 <= i < |Run(w, es).locked| ==> Run(w, es).locked[i].key > 0
    decreases |es|
  {
    if es != [] {
      assert es[0] in es;
      KeysArePositive(Step(w, es[0]), es[1..]);
    }
  }

  /** The numbers of active keys that leave room. */
  lemma {:induction false} RoomIs(d: nat)
    requires d <= WINDOW
    ensures Room(AuthConfig(), d) == if d == 0 then 102 else 51
    ensures Room(McpConfig(), d) == if d == 0 then 2 else 1
  {
  }

  // ---------------------------------------------------------------------------------------
  // No longer interval can be promised: one late thread

  lemma {:induction false} RunConcat<K>(w: World<K>, a: seq<Event<K>>, b: seq<Event<K>>, d: nat)
    requires IsRun(w, a) && IsRun(Run(w, a), b) && Prompt(w, a, d) && Prompt(Run(w, a), b, d)
    ensures IsRun(w, a + b) && Run(w, a + b) == Run(Run(w, a), b) && Prompt(w, a + b, d)
    decreases |a|
  {
    if a == [] {
      assert a + b == b;
    } else {
      assert (a + b)[1..] == a[1..] + b;
      RunConcat(Step(w, a[0]), a[1..], b, d);
    }
  }

  lemma {:induction false} OneStep<K>(w: World<K>, e: Event<K>, rest: seq<Event<K>>, d: nat)
    requires CanStep(w, e) && IsRun(Step(w, e), rest) && Prompt(Step(w, e), rest, d)
    requires e.Locked? ==> w.clock <= w.waiting[e.tid].now + d
    ensures IsRun(w, [e] + rest) && Prompt(w, [e] + rest, d) && Run(w, [e] + rest) == Run(Step(w, e), rest)
  {
    assert ([e] + rest)[1..] == rest;
  }

  function ReqsAt<K>(keys: seq<K>, t: int): (r: seq<Req<K>>)
    ensures |r| == |keys|
  {
    if keys == [] then [] else ReqsAt(Front(keys), t) + [Req(Last(keys), t)]
  }

  function EntriesAt<K>(keys: seq<K>, t: int): (r: seq<Entry<K>>)
    ensures |r| == |keys|
  {
    if keys == [] then [] else EntriesAt(Front(keys), t) + [Entry(Last(keys), t)]
  }

  lemma {:induction false} AllAt<K>(keys: seq<K>, t: int)
    ensures forall i :: 0 <= i < |keys| ==> ReqsAt(keys, t)[i] == Req(keys[i], t)
    ensures forall i :: 0 <= i < |keys| ==> EntriesAt(keys, t)[i] == Entry(keys[i], t)
  {
    if keys != [] {
      AllAt(Front(keys), t);
    }
  }

  lemma {:induction false} OneMoreAt<K>(keys: seq<K>, x: K, t: int)
    ensures ReqsAt(keys + [x], t) == ReqsAt(keys, t) + [Req(x, t)]
    ensures EntriesAt(keys + [x], t) == EntriesAt(keys, t) + [Entry(x, t)]
  {
    assert Front(keys + [x]) == keys;
  }

  lemma {:induction false} FirstReqAt<K>(keys: seq<K>, t: int)
    requires keys != []
    ensures ReqsAt(keys, t) == [Req(keys[0], t)] + ReqsAt(keys[1..], t)
  {
    AllAt(keys, t);
    AllAt(keys[1..], t);
  }

  /** One thread, a request for each key in turn, no wait. */
  function AtOnce<K>(keys: seq<K>): seq<Event<K>> {
    if keys == [] then [] else [Captured(0, keys[0])] + ([Locked(0)] + AtOnce(keys[1..]))
  }

  lemma {:induction false} AtOnceRuns<K>(w: World<K>, keys: seq<K>, d: nat)
    requires 0 !in w.waiting
    ensures IsRun(w, AtOnce(keys)) && Prompt(w, AtOnce(keys), d)
    ensures Run(w, AtOnce(keys)) == w.(locked := w.locked + ReqsAt(keys, w.clock))
    decreases |keys|
  {
    if keys != [] {
      var q := Req(keys[0], w.clock);
      var captured := Step(w, Captured(0, keys[0]));
      var served := Step(captured, Locked(0));
      assert served == w.(locked := w.locked + [q]);
      AtOnceRuns(served, keys[1..], d);
      OneStep(captured, Locked(0), AtOnce(keys[1..]), d);
      OneStep(w, Captured(0, keys[0]), [Locked(0)] + AtOnce(keys[1..]), d);
      FirstReqAt(keys, w.clock);
    }
  }

  /** How often a key has come. */
  function Times<K(==)>(keys: seq<K>, key: K): nat {
    if keys == [] then 0 else Times(Front(keys), key) + if Last(keys) == key then 1 else 0
  }

  lemma {:induction false} TimesAreCounted<K>(keys: seq<K>, key: K, t: int)
    ensures CountSince(EntriesAt(keys, t), key, t - WINDOW) == Times(keys, key)
  {
    if keys != [] {
      assert EntriesAt(keys, t)[..|keys| - 1] == EntriesAt(Front(keys), t);
      TimesAreCounted(Front(keys), key, t);
    }
  }

  function Repeated<T>(x: T, n: nat): (r: seq<T>)
    ensures |r| == n && forall i :: 0 <= i < n ==> r[i] == x
  {
    if n == 0 then [] else Repeated(x, n - 1) + [x]
  }

  lemma {:induction false} TimesRepeated<K>(key: K, n: nat)
    ensures Times(Repeated(key, n), key) == n
  {
    if n > 0 {
      assert Front(Repeated(key, n)) == Repeated(key, n - 1);
      TimesRepeated(key, n - 1);
    }
  }

  /** Each request comes when fewer than the limit of its key have come. */
  predicate BelowLimit<K(==)>(keys: seq<K>, limit: nat) {
    keys == [] || (BelowLimit(Front(keys), limit) && Times(Front(keys), Last(keys)) < limit)
  }

  /** Within one second nothing is evicted, and a request is admitted if the ring holds few of its key. */
  lemma {:induction false} AdmitsBelowLimit<K>(c: Config<K>, ring: seq<Entry<K>>, key: K, t: int)
    requires 0 < c.capacity && |ring| <= c.capacity
    requires forall i :: 0 <= i < |ring| ==> ring[i].ts == t && !c.unset(ring[i])
    requires CountSince(ring, key, t - WINDOW) < c.limit
    ensures Admit(ring, c.capacity, c.limit, c.unset, key, t)
            == (if |ring| == c.capacity then (ring[1..] + [Entry(key, t)], true) else (ring + [Entry(key, t)], true))
  {
    assert Evict(ring, t) == ring;
    ScansAll(ring, c.unset);
  }

  /** The last `n` elements, or all there are. */
  function Newest<T>(s: seq<T>, n: nat): seq<T> { if |s| <= n then s else s[|s| - n..] }

  lemma {:induction false} NewestSnoc<T>(s: seq<T>, n: nat, x: T)
    requires n > 0
    ensures Newest(s + [x], n) == (if |s| >= n then Newest(s, n)[1..] else s) + [x]
  {
  }

  /** None of these requests looks like an unset slot. */
  ghost predicate AllSet<K>(c: Config<K>, keys: seq<K>, t: int) {
    forall key :: key in keys ==> !c.unset(Entry(key, t))
  }

  lemma {:induction false} NewestIsSet<K>(c: Config<K>, keys: seq<K>, t: int)
    requires AllSet(c, keys, t)
    ensures var ring := Newest(EntriesAt(keys, t), c.capacity);
            forall i :: 0 <= i < |ring| ==> ring[i].ts == t && !c.unset(ring[i])
  {
    AllAt(keys, t);
  }

  lemma {:induction false} AdmitNewest<K>(c: Config<K>, keys: seq<K>, x: K, t: int)
    requires 0 < c.capacity && AllSet(c, keys, t) && Times(keys, x) < c.limit
    ensures Admit(Newest(EntriesAt(keys, t), c.capacity), c.capacity, c.limit, c.unset, x, t)
            == (Newest(EntriesAt(keys, t) + [Entry(x, t)], c.capacity), true)
  {
    var all := EntriesAt(keys, t);
    var ring := Newest(all, c.capacity);
    NewestIsSet(c, keys, t);
    TimesAreCounted(keys, x, t);
    CountSuffix(all, |all| - |ring|, x, t - WINDOW);
    AdmitsBelowLimit(c, ring, x, t);
    NewestSnoc(all, c.capacity, Entry(x, t));
  }

  ghost predicate ServedAll<K>(c: Config<K>, keys: seq<K>, t: int) {
    c.capacity > 0
    && ServeAll(c, ReqsAt(keys, t)) == Served(Newest(EntriesAt(keys, t), c.capacity), EntriesAt(keys, t))
  }

  lemma {:induction false} ServeOneMore<K>(c: Config<K>, reqs: seq<Req<K>>, q: Req<K>)
    requires c.capacity > 0
    requires Admit(ServeAll(c, reqs).ring, c.capacity, c.limit, c.unset, q.key, q.now).1
    ensures ServeAll(c, reqs + [q])
            == Served(Admit(ServeAll(c, reqs).ring, c.capacity, c.limit, c.unset, q.key, q.now).0,
                      ServeAll(c, reqs).admitted + [Entry(q.key, q.now)])
  {
    assert Front(reqs + [q]) == reqs;
  }

  lemma {:induction false} OneMoreServed<K>(c: Config<K>, keys: seq<K>, x: K, t: int)
    requires AllSet(c, keys, t) && Times(keys, x) < c.limit && ServedAll(c, keys, t)
    ensures ServedAll(c, keys + [x], t)
  {
    AdmitNewest(c, keys, x, t);
    OneMoreAt(keys, x, t);
    ServeOneMore(c, ReqsAt(keys, t), Req(x, t));
  }

  lemma {:induction false} FrontIsSet<K>(c: Config<K>, keys: seq<K>, t: int)
    requires AllSet(c, keys, t) && keys != []
    ensures AllSet(c, Front(keys), t)
  {
  }

  lemma {:induction false} FrontAndLast<T>(s: seq<T>)
    requires s != []
    ensures Front(s) + [Last(s)] == s
  {
  }

  /** Such a burst is admitted whole, and the ring keeps what it can. */
  lemma {:induction false} AtOnceServed<K>(c: Config<K>, keys: seq<K>, t: int)
    requires 0 < c.capacity && BelowLimit(keys, c.limit) && AllSet(c, keys, t)
    ensures ServedAll(c, keys, t)
  {
    if keys != [] {
      FrontIsSet(c, keys, t);
      AtOnceServed(c, Front(keys), t);
      OneMoreServed(c, Front(keys), Last(keys), t);
      FrontAndLast(keys);
    }
  }

  lemma {:induction false} RepeatedBelow<K>(key: K, n: nat, limit: nat)
    requires n <= limit
    ensures BelowLimit(Repeated(key, n), limit)
  {
    if n > 0 {
      assert Front(Repeated(key, n)) == Repeated(key, n - 1);
      TimesRepeated(key, n - 1);
      RepeatedBelow(key, n - 1, limit);
    }
  }

  lemma {:induction false} HammerServed<K>(c: Config<K>, key: K, t: int, n: nat)
    requires n <= c.limit <= c.capacity && 0 < c.capacity && !c.unset(Entry(key, t))
    ensures var entries := EntriesAt(Repeated(key, n), t);
            ServeAll(c, ReqsAt(Repeated(key, n), t)) == Served(entries, entries)
  {
    RepeatedBelow(key, n, c.limit);
    AtOnceServed(c, Repeated(key, n), t);
  }

  lemma {:induction false} EvictAll<K>(s: seq<Entry<K>>, now: int)
    requires forall i :: 0 <= i < |s| ==> now - s[i].ts > WINDOW
    ensures Evict(s, now) == []
  {
    if s != [] {
      EvictAll(s[1..], now);
    }
  }

  /** The last six steps: `a` reads the clock, another request overtakes it and clears the ring. */
  function Overtaken<K>(a: K, b: K, d: nat): seq<Event<K>>
    requires 1 <= d <= WINDOW + 1
  {
    [Ticked(WINDOW + 1 - d), Captured(1, a), Ticked(d), Captured(2, b), Locked(2), Locked(1)]
  }

  lemma {:induction false} OvertakenRuns<K>(w: World<K>, a: K, b: K, d: nat)
    requires w.waiting == map[] && 1 <= d <= WINDOW + 1
    ensures IsRun(w, Overtaken(a, b, d)) && Prompt(w, Overtaken(a, b, d), d)
    ensures Run(w, Overtaken(a, b, d)).locked
            == w.locked + [Req(b, w.clock + WINDOW + 1), Req(a, w.clock + WINDOW + 1 - d)]
  {
    var w1 := Step(w, Ticked(WINDOW + 1 - d));
    var w2 := Step(w1, Captured(1, a));
    var w3 := Step(w2, Ticked(d));
    var w4 := Step(w3, Captured(2, b));
    var w5 := Step(w4, Locked(2));
    var es := Overtaken(a, b, d);
    assert es[6..] == [];
    OneStep(w5, es[5], es[6..], d);
    assert [es[5]] + es[6..] == es[5..];
    OneStep(w4, es[4], es[5..], d);
    assert [es[4]] + es[5..] == es[4..];
    OneStep(w3, es[3], es[4..], d);
    assert [es[3]] + es[4..] == es[3..];
    OneStep(w2, es[2], es[3..], d);
    assert [es[2]] + es[3..] == es[2..];
    OneStep(w1, es[1], es[2..], d);
    assert [es[1]] + es[2..] == es[1..];
    OneStep(w, es[0], es[1..], d);
    assert [es[0]] + es[1..] == es;
  }

  /** A request that comes 61 seconds later finds nothing. */
  lemma {:induction false} AdmitToNone<K>(c: Config<K>, ring: seq<Entry<K>>, key: K, t: int)
    requires 0 < c.limit && 0 < c.capacity && |ring| <= c.capacity
    requires forall i :: 0 <= i < |ring| ==> ring[i].ts == t
    ensures Admit(ring, c.capacity, c.limit, c.unset, key, t + WINDOW + 1) == ([Entry(key, t + WINDOW + 1)], true)
  {
    EvictAll(ring, t + WINDOW + 1);
    var none: seq<Entry<K>> := [];
    assert Evict(ring, t + WINDOW + 1) == none && Scanned(none, c.unset) == none;
    assert CountSince(none, key, t + 1) == 0;
    assert none + [Entry(key, t + WINDOW + 1)] == [Entry(key, t + WINDOW + 1)];
  }

  /** And the one it has overtaken finds only it. */
  lemma {:induction false} AdmitAfter<K>(c: Config<K>, e: Entry<K>, key: K, now: int)
    requires 0 < c.limit && 0 < c.capacity && e.key != key && now <= e.ts && !c.unset(e)
    ensures Admit([e], c.capacity, c.limit, c.unset, key, now).1
  {
    assert Evict([e], now) == [e];
    ScansAll([e], c.unset);
    assert CountSince([e], key, now - WINDOW) == 0;
  }

  lemma {:induction false} ServeTwoMore<K>(c: Config<K>, reqs: seq<Req<K>>, q: Req<K>, p: Req<K>, ring: seq<Entry<K>>)
    requires c.capacity > 0 && |ring| <= c.capacity
    requires Admit(ServeAll(c, reqs).ring, c.capacity, c.limit, c.unset, q.key, q.now) == (ring, true)
    requires Admit(ring, c.capacity, c.limit, c.unset, p.key, p.now).1
    ensures ServeAll(c, reqs + [q, p]).admitted
            == ServeAll(c, reqs).admitted + [Entry(q.key, q.now), Entry(p.key, p.now)]
  {
    ServeOneMore(c, reqs, q);
    ServeOneMore(c, reqs + [q], p);
    assert reqs + [q, p] == reqs + [q] + [p];
  }

  lemma {:induction false} OvertakenServed<K>(c: Config<K>, reqs: seq<Req<K>>, a: K, b: K, t: int, d: nat)
    requires 0 < c.limit <= c.capacity && 1 <= d <= WINDOW + 1 && a != b && !c.unset(Entry(b, t + WINDOW + 1))
    requires forall i :: 0 <= i < |ServeAll(c, reqs).ring| ==> ServeAll(c, reqs).ring[i].ts == t
    ensures ServeAll(c, reqs + [Req(b, t + WINDOW + 1), Req(a, t + WINDOW + 1 - d)]).admitted
            == ServeAll(c, reqs).admitted + [Entry(b, t + WINDOW + 1), Entry(a, t + WINDOW + 1 - d)]
  {
    var q, p := Req(b, t + WINDOW + 1), Req(a, t + WINDOW + 1 - d);
    AdmitToNone(c, ServeAll(c, reqs).ring, b, t);
    AdmitAfter(c, Entry(b, q.now), a, p.now);
    ServeTwoMore(c, reqs, q, p, [Entry(b, q.now)]);
  }

  lemma {:induction false} OneMoreCounted<K>(s: seq<Entry<K>>, a: K, b: K, t: int, d: nat)
    requires 1 <= d <= WINDOW + 1 && a != b
    ensures CountIn(s + [Entry(b, t + WINDOW + 1), Entry(a, t + WINDOW + 1 - d)], a, t, t + WINDOW + 1 - d)
            == CountIn(s, a, t, t + WINDOW + 1 - d) + 1
  {
    var x, y := Entry(b, t + WINDOW + 1), Entry(a, t + WINDOW + 1 - d);
    assert Front(s + [x, y]) == s + [x] && Front(s + [x]) == s;
  }

  /** The requests of that run, in lock order. */
  function LateRequests<K>(a: K, b: K, t: int, n: nat, d: nat): seq<Req<K>> {
    ReqsAt(Repeated(a, n), t) + [Req(b, t + WINDOW + 1), Req(a, t + WINDOW + 1 - d)]
  }

  lemma {:induction false} LateRun<K>(a: K, b: K, t: int, n: nat, d: nat)
    requires 1 <= d <= WINDOW + 1
    ensures var w: World<K>, es := Start(t), AtOnce(Repeated(a, n)) + Overtaken(a, b, d);
            IsRun(w, es) && Prompt(w, es, d) && Run(w, es).locked == LateRequests(a, b, t, n, d)
  {
    var w: World<K> := Start(t);
    AtOnceRuns(w, Repeated(a, n), d);
    OvertakenRuns(Run(w, AtOnce(Repeated(a, n))), a, b, d);
    RunConcat(w, AtOnce(Repeated(a, n)), Overtaken(a, b, d), d);
  }

  lemma {:induction false} CountRepeated<K>(key: K, t: int, n: nat, lo: int, hi: int)
    requires lo <= t <= hi
    ensures CountIn(EntriesAt(Repeated(key, n), t), key, lo, hi) == n
  {
    if n > 0 {
      assert Front(Repeated(key, n)) == Repeated(key, n - 1);
      assert Front(EntriesAt(Repeated(key, n), t)) == EntriesAt(Repeated(key, n - 1), t);
      CountRepeated(key, t, n - 1, lo, hi);
    }
  }

  lemma {:induction false} LateCount<K>(a: K, b: K, t: int, n: nat, d: nat)
    requires 1 <= d <= WINDOW + 1 && a != b
    ensures CountIn(EntriesAt(Repeated(a, n), t) + [Entry(b, t + WINDOW + 1), Entry(a, t + WINDOW + 1 - d)],
                    a, t, t + (WINDOW - d) + 1) == n + 1
  {
    OneMoreCounted(EntriesAt(Repeated(a, n), t), a, b, t, d);
    CountRepeated(a, t, n, t, t + WINDOW + 1 - d);
  }

  lemma {:induction false} LateServed<K>(c: Config<K>, a: K, b: K, t: int, d: nat)
    requires 0 < c.limit <= c.capacity && 1 <= d <= WINDOW + 1 && a != b
    requires !c.unset(Entry(a, t)) && !c.unset(Entry(b, t + WINDOW + 1))
    ensures CountIn(ServeAll(c, LateRequests(a, b, t, c.limit, d)).admitted, a, t, t + (WINDOW - d) + 1) == c.limit + 1
  {
    HammerServed(c, a, t, c.limit);
    AllAt(Repeated(a, c.limit), t);
    OvertakenServed(c, ReqsAt(Repeated(a, c.limit), t), a, b, t, d);
    LateCount(a, b, t, c.limit, d);
  }

  /**
    * With two active keys and waits of at most d >= 1 seconds, an interval one second longer than
    * promised may admit `limit + 1` requests of a key.
    */
  lemma {:induction false} LateLockAdmitsMore<K>(c: Config<K>, a: K, b: K, t: int, d: nat) returns (es: seq<Event<K>>)
    requires 0 < c.limit <= c.capacity && 1 <= d <= WINDOW + 1 && a != b
    requires !c.unset(Entry(a, t)) && !c.unset(Entry(b, t + WINDOW + 1))
    ensures IsRun(Start(t), es) && Prompt(Start(t), es, d)
    ensures forall q :: q in Run(Start(t), es).locked ==> q.key == a || q.key == b
    ensures CountIn(ServeAll(c, Run(Start(t), es).locked).admitted, a, t, t + (WINDOW - d) + 1) == c.limit + 1
  {
    LateRun(a, b, t, c.limit, d);
    LateServed(c, a, b, t, d);
    AllAt(Repeated(a, c.limit), t);
    es := AtOnce(Repeated(a, c.limit)) + Overtaken(a, b, d);
  }

  /** A wait of one second is enough for 11 requests of one pair in 60 seconds. */
  lemma {:induction false} AuthLateLock(path: string, ip: string, other: string) returns (es: seq<Event<Route>>)
    requires Addresses([ip, other])
    ensures IsRun(Start(100), es) && Prompt(Start(100), es, 1)
    ensures CountIn(ServeAll(AuthConfig(), Run(Start(100), es).locked).admitted, RouteKey(path, ip), 100, 160) == 11
  {
    assert [ip, other][0] == ip && [ip, other][1] == other;
    CountTogetherExactly(path, ip, path, other);
    es := LateLockAdmitsMore(AuthConfig(), RouteKey(path, ip), RouteKey(path, other), 100, 1);
  }
}
