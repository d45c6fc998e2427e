/** One active key more than the ring has room for, and the limit fails. */
module RateLimitBursts {
  import opened Prelude
  import opened Arith
  import opened RateLimit
  import opened RateLimitWindow
  import opened RateLimitRuns

  ghost predicate Distinct<K>(keys: seq<K>) {
    forall i, j :: 0 <= i < j < |keys| ==> keys[i] != keys[j]
  }

  /** `limit` times the first key, then `limit` times the second, and so on. */
  function Blocks<K>(keys: seq<K>, limit: nat): (r: seq<K>)
    ensures forall key :: key in r ==> key in keys
  {
    if keys == [] then [] else Blocks(Front(keys), limit) + Repeated(Last(keys), limit)
  }

  lemma {:induction false} BlocksLength<K>(keys: seq<K>, limit: nat)
    ensures |Blocks(keys, limit)| == limit * |keys|
  {
    if keys != [] {
      BlocksLength(Front(keys), limit);
      MulStep(limit, |keys|);
    }
  }

  lemma {:induction false} TimesAppend<K>(a: seq<K>, b: seq<K>, key: K)
    ensures Times(a + b, key) == Times(a, key) + Times(b, key)
  {
    if b == [] {
      assert a + b == a;
    } else {
      assert Front(a + b) == a + Front(b);
      TimesAppend(a, Front(b), key);
    }
  }

  lemma {:induction false} TimesAbsent<K>(s: seq<K>, key: K)
    requires key !in s
    ensures Times(s, key) == 0
  {
    if s != [] {
      TimesAbsent(Front(s), key);
    }
  }

  /** How often the key of the last block has come when `i` of its requests have. */
  lemma {:induction false} LastBlockTimes<K>(keys: seq<K>, limit: nat, i: nat)
    requires keys != [] && Distinct(keys)
    ensures Times(Blocks(Front(keys), limit) + Repeated(Last(keys), i), Last(keys)) == i
  {
    TimesAppend(Blocks(Front(keys), limit), Repeated(Last(keys), i), Last(keys));
    TimesAbsent(Blocks(Front(keys), limit), Last(keys));
    TimesRepeated(Last(keys), i);
  }

  lemma {:induction false} RepeatedTake<T>(x: T, n: nat, i: nat)
    requires i <= n
    ensures Repeated(x, n)[..i] == Repeated(x, i)
  {
  }

  lemma {:induction false} LastBlockBelow<K>(keys: seq<K>, limit: nat, i: nat)
    requires keys != [] && Distinct(keys) && i <= limit && BelowLimit(Blocks(Front(keys), limit), limit)
    ensures BelowLimit(Blocks(Front(keys), limit) + Repeated(Last(keys), i), limit)
  {
    var front, x := Blocks(Front(keys), limit), Last(keys);
    if i == 0 {
      assert front + Repeated(x, 0) == front;
    } else {
      LastBlockBelow(keys, limit, i - 1);
      LastBlockTimes(keys, limit, i - 1);
      assert Front(front + Repeated(x, i)) == front + Repeated(x, i - 1);
    }
  }

  lemma {:induction false} BlocksBelowLimit<K>(keys: seq<K>, limit: nat)
    requires Distinct(keys)
    ensures BelowLimit(Blocks(keys, limit), limit)
  {
    if keys != [] {
      BlocksBelowLimit(Front(keys), limit);
      LastBlockBelow(keys, limit, limit);
    }
  }

  lemma {:induction false} BelowLimitPrefix<K>(keys: seq<K>, n: nat, limit: nat)
    requires BelowLimit(keys, limit) && n <= |keys|
    ensures BelowLimit(keys[..n], limit)
  {
    if n == |keys| {
      assert keys[..n] == keys;
    } else {
      assert keys[..n] == Front(keys)[..n];
      BelowLimitPrefix(Front(keys), n, limit);
    }
  }

  /** Once the first block is over, the first key has come `limit` times. */
  lemma {:induction false} FirstBlockTimes<K>(keys: seq<K>, limit: nat, n: nat)
    requires keys != [] && Distinct(keys) && limit <= n <= |Blocks(keys, limit)|
    ensures Times(Blocks(keys, limit)[..n], keys[0]) == limit
  {
    var all, front, i := Blocks(keys, limit), Blocks(Front(keys), limit), n - |Blocks(Front(keys), limit)|;
    if |keys| == 1 {
      assert front == [] && all[..n] == Blocks(Front(keys), limit) + Repeated(Last(keys), limit);
      LastBlockTimes(keys, limit, limit);
    } else if i <= 0 {
      assert all[..n] == front[..n];
      FirstBlockTimes(Front(keys), limit, n);
    } else {
      RepeatedTake(Last(keys), limit, i);
      assert all[..n] == front + Repeated(Last(keys), i);
      BlocksLength(Front(keys), limit);
      MulOrder(limit, 1, |keys| - 1);
      assert front[..|front|] == front;
      FirstBlockTimes(Front(keys), limit, |front|);
      TimesAppend(front, Repeated(Last(keys), i), keys[0]);
      TimesAbsent(Repeated(Last(keys), i), keys[0]);
    }
  }

  /** As many as overflow the ring by one, and one more of the first key. */
  function Burst<K>(keys: seq<K>, limit: nat, capacity: nat): (r: seq<K>)
    requires capacity < |Blocks(keys, limit)|
    ensures forall key :: key in r ==> key in keys
  {
    assert Blocks(keys, limit)[0] in keys;
    Blocks(keys, limit)[..capacity + 1] + [keys[0]]
  }

  /** The overflow throws one of the `limit` requests of the first key out of the ring. */
  lemma {:induction false} BurstOverflow<K>(keys: seq<K>, limit: nat, capacity: nat)
    requires 0 < limit <= capacity < |Blocks(keys, limit)| && keys != [] && Distinct(keys)
    ensures Times(Blocks(keys, limit)[..capacity + 1], keys[0]) == limit
    ensures Times(Blocks(keys, limit)[..capacity + 1][1..], keys[0]) == limit - 1
  {
    var burst := Blocks(keys, limit)[..capacity + 1];
    FirstBlockTimes(keys, limit, capacity + 1);
    FirstOfBlocks(keys, limit);
    TimesAppend(burst[..1], burst[1..], keys[0]);
    assert burst == burst[..1] + burst[1..];
    assert burst[..1] == Repeated(keys[0], 1);
    TimesRepeated(keys[0], 1);
  }

  lemma {:induction false} FirstOfBlocks<K>(keys: seq<K>, limit: nat)
    requires limit > 0 && keys != []
    ensures |Blocks(keys, limit)| > 0 && Blocks(keys, limit)[0] == keys[0]
  {
    if |keys| > 1 {
      FirstOfBlocks(Front(keys), limit);
    }
  }

  lemma {:induction false} CountOneMore<K>(entries: seq<Entry<K>>, key: K, t: int)
    requires forall i :: 0 <= i < |entries| ==> entries[i].ts == t
    ensures CountIn(entries + [Entry(key, t)], key, t - WINDOW, t) == CountSince(entries, key, t - WINDOW) + 1
  {
    CountConcat(entries, [Entry(key, t)], key, t - WINDOW);
    SinceByCountIn(entries + [Entry(key, t)], key, t - WINDOW, t);
  }

  /** The last request finds the ring full of others. */
  lemma {:induction false} OneMoreAdmitted<K>(c: Config<K>, reqs: seq<Req<K>>, entries: seq<Entry<K>>, key: K, t: int)
    requires 0 < c.limit <= c.capacity && |entries| == c.capacity + 1
    requires ServeAll(c, reqs) == Served(entries[1..], entries)
    requires forall i :: 0 <= i < |entries| ==> entries[i].ts == t && !c.unset(entries[i])
    requires CountSince(entries, key, t - WINDOW) == c.limit
    requires CountSince(entries[1..], key, t - WINDOW) < c.limit
    ensures CountIn(ServeAll(c, reqs + [Req(key, t)]).admitted, key, t - WINDOW, t) == c.limit + 1
  {
    AdmitsBelowLimit(c, entries[1..], key, t);
    ServeOneMore(c, reqs, Req(key, t));
    CountOneMore(entries, key, t);
  }

  lemma {:induction false} OverflowServed<K>(c: Config<K>, keys: seq<K>, t: int)
    requires 0 < c.limit <= c.capacity < |Blocks(keys, c.limit)| && Distinct(keys)
    requires AllSet(c, keys, t)
    ensures var burst := Blocks(keys, c.limit)[..c.capacity + 1];
            ServeAll(c, ReqsAt(burst, t)) == Served(EntriesAt(burst, t)[1..], EntriesAt(burst, t))
  {
    BlocksBelowLimit(keys, c.limit);
    BelowLimitPrefix(Blocks(keys, c.limit), c.capacity + 1, c.limit);
    AtOnceServed(c, Blocks(keys, c.limit)[..c.capacity + 1], t);
  }

  lemma {:induction false} OverflowAdmits<K>(c: Config<K>, keys: seq<K>, t: int)
    requires 0 < c.limit <= c.capacity < |Blocks(keys, c.limit)| && keys != [] && Distinct(keys)
    requires AllSet(c, keys, t)
    ensures CountIn(ServeAll(c, ReqsAt(Burst(keys, c.limit, c.capacity), t)).admitted, keys[0], t - WINDOW, t)
            == c.limit + 1
  {
    var burst := Blocks(keys, c.limit)[..c.capacity + 1];
    OverflowServed(c, keys, t);
    BurstOverflow(keys, c.limit, c.capacity);
    BurstEntries(c, burst, keys[0], t);
    OneMoreAdmitted(c, ReqsAt(burst, t), EntriesAt(burst, t), keys[0], t);
    OneMoreAt(burst, keys[0], t);
  }

  lemma {:induction false} BurstEntries<K>(c: Config<K>, burst: seq<K>, key: K, t: int)
    requires AllSet(c, burst, t) && burst != []
    ensures var entries := EntriesAt(burst, t);
            && (forall i :: 0 <= i < |entries| ==> entries[i].ts == t && !c.unset(entries[i]))
            && CountSince(entries, key, t - WINDOW) == Times(burst, key)
            && CountSince(entries[1..], key, t - WINDOW) == Times(burst[1..], key)
  {
    AllAt(burst, t);
    AllAt(burst[1..], t);
    TimesAreCounted(burst, key, t);
    TimesAreCounted(burst[1..], key, t);
    assert EntriesAt(burst, t)[1..] == EntriesAt(burst[1..], t);
  }

  /**
    * The number of active keys is the largest possible: with one more, a burst within one second, no
    * thread of which waits, gets `limit + 1` requests of a key through.
    */
  lemma {:induction false} OneKeyTooMany<K>(c: Config<K>, keys: seq<K>, t: int) returns (es: seq<Event<K>>)
    requires 0 < c.limit <= c.capacity && |keys| == Room(c, 0) + 1 && Distinct(keys)
    requires AllSet(c, keys, t)
    ensures IsRun(Start(t), es) && Prompt(Start(t), es, 0)
    ensures forall q :: q in Run(Start(t), es).locked ==> q.key in keys && q.now == t
    ensures CountIn(ServeAll(c, Run(Start(t), es).locked).admitted, keys[0], t - WINDOW, t) == c.limit + 1
  {
    RoomIsTight(c);
    BlocksLength(keys, c.limit);
    var burst := Burst(keys, c.limit, c.capacity);
    es := AtOnce(burst);
    AtOnceRuns(Start(t), burst, 0);
    assert Run(Start(t), es).locked == ReqsAt(burst, t);
    ReqsAre(burst, keys, t);
    OverflowAdmits(c, keys, t);
  }

  lemma {:induction false} ReqsAre<K>(burst: seq<K>, keys: seq<K>, t: int)
    requires forall key :: key in burst ==> key in keys
    ensures forall q :: q in ReqsAt(burst, t) ==> q.key in keys && q.now == t
  {
    AllAt(burst, t);
  }

  lemma {:induction false} RoomIsTight<K>(c: Config<K>)
    requires 0 < c.limit <= c.capacity
    ensures c.capacity < c.limit * (Room(c, 0) + 1)
  {
    DivBetween(c.capacity, c.limit, Room(c, 0));
    MulStep(c.limit, Room(c, 0) + 1);
  }

  /** 103 addresses on one path: 11 requests of the first get through in a second. */
  lemma {:induction false} AuthBurst(path: string, ips: seq<string>, t: int) returns (es: seq<Event<Route>>)
    requires |ips| == 103 && Addresses(ips) && t != 0
    ensures IsRun(Start(t), es) && Prompt(Start(t), es, 0)
    ensures CountIn(ServeAll(AuthConfig(), Run(Start(t), es).locked).admitted, RouteKey(path, ips[0]), t - 60, t) == 11
  {
    RoomIs(0);
    AddressesAreKeys(path, ips);
    es := OneKeyTooMany(AuthConfig(), RouteKeys(path, ips), t);
  }

  /** Three users: 121 requests of the first get through in a second. */
  lemma {:induction false} McpBurst(users: seq<int>, t: int) returns (es: seq<Event<int>>)
    requires |users| == 3 && Distinct(users) && forall i :: 0 <= i < 3 ==> users[i] > 0
    ensures IsRun(Start(t), es) && Prompt(Start(t), es, 0)
    ensures CountIn(ServeAll(McpConfig(), Run(Start(t), es).locked).admitted, users[0], t - 60, t) == 121
  {
    RoomIs(0);
    es := OneKeyTooMany(McpConfig(), users, t);
  }

  lemma {:induction false} DistinctIsBelowLimit<K>(keys: seq<K>, limit: nat)
    requires Distinct(keys) && limit > 0
    ensures BelowLimit(keys, limit)
  {
    if keys != [] {
      DistinctIsBelowLimit(Front(keys), limit);
      TimesAbsent(Front(keys), Last(keys));
    }
  }

  /** Of requests of different addresses in one second the ring remembers the newest 1024, or all there are. */
  lemma {:induction false} AuthRingHolds(path: string, ips: seq<string>, t: int)
    requires Addresses(ips) && t != 0
    ensures var keys := RouteKeys(path, ips);
            ServeAll(AuthConfig(), ReqsAt(keys, t)) == Served(Newest(EntriesAt(keys, t), 1024), EntriesAt(keys, t))
  {
    AddressesAreKeys(path, ips);
    DistinctIsBelowLimit(RouteKeys(path, ips), AuthConfig().limit);
    AtOnceServed(AuthConfig(), RouteKeys(path, ips), t);
  }

  /** Of different users, the newest 256. */
  lemma {:induction false} McpRingHolds(users: seq<int>, t: int)
    requires Distinct(users) && forall i :: 0 <= i < |users| ==> users[i] > 0
    ensures ServeAll(McpConfig(), ReqsAt(users, t)) == Served(Newest(EntriesAt(users, t), 256), EntriesAt(users, t))
  {
    DistinctIsBelowLimit(users, McpConfig().limit);
    AtOnceServed(McpConfig(), users, t);
  }
}
