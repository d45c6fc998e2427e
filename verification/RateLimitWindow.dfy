/**
  * What the limiter guarantees over whole sequences of requests: it refines counting the admitted
  * requests of the last 60 seconds, as long as few enough keys are active for the ring to hold.
  */
module RateLimitWindow {
  import opened Prelude
  import opened Arith
  import opened RateLimit

  datatype Config<!K> = Config(capacity: nat, limit: nat, unset: Entry<K> -> bool)
  datatype Req<K> = Req(key: K, now: int)

  /** The ring and the admitted requests so far. */
  datatype Served<K> = Served(ring: seq<Entry<K>>, admitted: seq<Entry<K>>)

  function ServeAll<K(==)>(c: Config<K>, reqs: seq<Req<K>>): (r: Served<K>)
    requires c.capacity > 0
    ensures |r.ring| <= c.capacity
  {
    if reqs == [] then Served([], [])
    else
      var before, q := ServeAll(c, Front(reqs)), Last(reqs);
      var (ring, ok) := Admit(before.ring, c.capacity, c.limit, c.unset, q.key, q.now);
      Served(ring, if ok then before.admitted + [Entry(q.key, q.now)] else before.admitted)
  }

  predicate IsAdmitted<K(==)>(c: Config<K>, reqs: seq<Req<K>>)
    requires c.capacity > 0 && reqs != []
  {
    var before, q := ServeAll(c, Front(reqs)), Last(reqs);
    Admit(before.ring, c.capacity, c.limit, c.unset, q.key, q.now).1
  }

  /** Admitted requests of `key` in the closed interval [lo, hi]. */
  function CountIn<K(==)>(s: seq<Entry<K>>, key: K, lo: int, hi: int): nat {
    if s == [] then 0
    else CountIn(Front(s), key, lo, hi) + (if Last(s).key == key && lo <= Last(s).ts <= hi then 1 else 0)
  }

  /** No closed interval of `span` seconds holds more than `limit` entries of a key. */
  ghost predicate AtMost<K(!new)>(s: seq<Entry<K>>, limit: nat, span: int) {
    forall key, lo :: InSpan(s, key, lo, span) <= limit
  }

  function InSpan<K(==)>(s: seq<Entry<K>>, key: K, lo: int, span: int): nat {
    CountIn(s, key, lo, lo + span)
  }

  /**
    * The clock is read before the lock is taken, so in lock order times may step back: here by at
    * most `d` seconds.
    */
  ghost predicate Lagged<K>(reqs: seq<Req<K>>, d: nat) {
    forall i, j :: 0 <= i <= j < |reqs| ==> reqs[i].now <= reqs[j].now + d
  }

  /** The latest time a request has come with. */
  function Latest<K>(reqs: seq<Req<K>>): (r: int)
    requires reqs != []
    ensures forall i :: 0 <= i < |reqs| ==> reqs[i].now <= r
    ensures exists i :: 0 <= i < |reqs| && reqs[i].now == r
  {
    if |reqs| == 1 then reqs[0].now
    else
      assert forall i :: 0 <= i < |reqs| - 1 ==> reqs[i] == Front(reqs)[i];
      var r := Latest(Front(reqs));
      if Last(reqs).now > r then Last(reqs).now else r
  }

  ghost predicate NeverUnset<K>(c: Config<K>, reqs: seq<Req<K>>) {
    forall i :: 0 <= i < |reqs| ==> !c.unset(Entry(reqs[i].key, reqs[i].now))
  }

  function KeysSince<K(==)>(reqs: seq<Req<K>>, since: int): (keys: set<K>)
    ensures forall i :: 0 <= i < |reqs| && reqs[i].now >= since ==> reqs[i].key in keys
  {
    if reqs == [] then {}
    else
      assert forall i :: 0 <= i < |reqs| - 1 ==> reqs[i] == Front(reqs)[i];
      KeysSince(Front(reqs), since) + if Last(reqs).now >= since then {Last(reqs).key} else {}
  }

  /** At most `k` keys made requests in the window that ends with the last one, or up to `d` seconds before. */
  predicate FewNow<K(==)>(reqs: seq<Req<K>>, k: nat, d: nat)
    requires reqs != []
  {
    |KeysSince(reqs, Last(reqs).now - WINDOW - d)| <= k
  }

  /** And so it is at every request. */
  ghost predicate FewKeys<K>(reqs: seq<Req<K>>, k: nat, d: nat) {
    forall n :: 0 < n <= |reqs| ==> FewNow(reqs[..n], k, d)
  }

  /**
    * How many times the limit one key may hold of the ring. With a lag the ring also keeps entries that are
    * too old to be counted, 61 + d seconds of them in all; any 61 seconds of them hold one limit.
    */
  function Shares(d: nat): (m: nat)
    requires d <= WINDOW
    ensures 1 <= m && WINDOW + d < m * (WINDOW + 1)
  {
    if d == 0 then 1 else 2
  }

  lemma {:induction false} Commute(a: int, b: int)
    ensures a * b == b * a
  {
  }

  lemma {:induction false} DivBetween(n: nat, d: nat, q: nat)
    requires d > 0
    ensures n / d == q <==> d * q <= n < d * q + d
  {
    assert n == d * (n / d) + n % d;
    MulOrder(d, n / d, q);
    MulOrder(d, q, n / d);
  }

  // ---------------------------------------------------------------------------------------
  // Counting

  lemma {:induction false} CountConcat<K>(a: seq<Entry<K>>, b: seq<Entry<K>>, key: K, since: int)
    ensures CountSince(a + b, key, since) == CountSince(a, key, since) + CountSince(b, key, since)
  {
    if b == [] {
      assert a + b == a;
    } else {
      assert (a + b)[..|a + b| - 1] == a + b[..|b| - 1];
      CountConcat(a, b[..|b| - 1], key, since);
    }
  }

  lemma {:induction false} CountOld<K>(s: seq<Entry<K>>, key: K, since: int)
    requires forall i :: 0 <= i < |s| ==> s[i].ts < since
    ensures CountSince(s, key, since) == 0
  {
    if s != [] {
      CountOld(s[..|s| - 1], key, since);
    }
  }

  /** Eviction takes nothing away that counts. */
  lemma {:induction false} EvictKeepsCount<K>(s: seq<Entry<K>>, key: K, now: int)
    ensures CountSince(Evict(s, now), key, now - WINDOW) == CountSince(s, key, now - WINDOW)
  {
    var r := Evict(s, now);
    EvictShape(s, now);
    var gone := s[..|s| - |r|];
    assert s == gone + r;
    CountConcat(gone, r, key, now - WINDOW);
    CountOld(gone, key, now - WINDOW);
  }

  lemma {:induction false} EvictTwice<K>(s: seq<Entry<K>>, t: int, now: int)
    requires t <= now
    ensures Evict(Evict(s, t), now) == Evict(s, now)
  {
    if s != [] && t - s[0].ts > WINDOW {
      EvictTwice(s[1..], t, now);
    }
  }

  lemma {:induction false} EvictSnoc<K>(s: seq<Entry<K>>, e: Entry<K>, now: int)
    requires now - e.ts <= WINDOW
    ensures Evict(s + [e], now) == Evict(s, now) + [e]
  {
    if s != [] {
      assert (s + [e])[0] == s[0] && (s + [e])[1..] == s[1..] + [e];
      EvictSnoc(s[1..], e, now);
    }
  }

  /** What was evicted for a later time has nothing to lose for an earlier one. */
  lemma {:induction false} EvictEarlier<K>(s: seq<Entry<K>>, t: int, now: int)
    requires now <= t
    ensures Evict(Evict(s, t), now) == Evict(s, t)
  {
    EvictShape(s, t);
  }

  lemma {:induction false} ScansAll<K>(s: seq<Entry<K>>, unset: Entry<K> -> bool)
    requires forall i :: 0 <= i < |s| ==> !unset(s[i])
    ensures Scanned(s, unset) == s
  {
    ScannedShape(s, unset);
  }

  lemma {:induction false} CountInBySince<K>(s: seq<Entry<K>>, key: K, lo: int, hi: int, since: int)
    requires since <= lo
    ensures CountIn(s, key, lo, hi) <= CountSince(s, key, since)
  {
    if s != [] {
      CountInBySince(Front(s), key, lo, hi, since);
    }
  }

  lemma {:induction false} SinceByCountIn<K>(s: seq<Entry<K>>, key: K, since: int, hi: int)
    requires forall i :: 0 <= i < |s| ==> s[i].ts <= hi
    ensures CountSince(s, key, since) == CountIn(s, key, since, hi)
  {
    if s != [] {
      SinceByCountIn(Front(s), key, since, hi);
    }
  }

  lemma {:induction false} CountSinceLater<K>(s: seq<Entry<K>>, key: K, since: int, later: int)
    requires since <= later
    ensures CountSince(s, key, later) <= CountSince(s, key, since)
  {
    if s != [] {
      CountSinceLater(s[..|s| - 1], key, since, later);
    }
  }

  lemma {:induction false} CountInSplit<K>(s: seq<Entry<K>>, key: K, lo: int, mid: int, hi: int)
    ensures CountIn(s, key, lo, hi) <= CountIn(s, key, lo, mid) + CountIn(s, key, mid + 1, hi)
  {
    if s != [] {
      CountInSplit(Front(s), key, lo, mid, hi);
    }
  }

  lemma {:induction false} CountInEmpty<K>(s: seq<Entry<K>>, key: K, lo: int, hi: int)
    requires hi < lo
    ensures CountIn(s, key, lo, hi) == 0
  {
    if s != [] {
      CountInEmpty(Front(s), key, lo, hi);
    }
  }

  /** An interval that `m` spans cover holds at most m times the limit. */
  lemma {:induction false} CountInCover<K(!new)>(s: seq<Entry<K>>, key: K, lo: int, hi: int, limit: nat, span: nat,
                                          m: nat)
    requires AtMost(s, limit, span) && hi < lo + m * (span + 1)
    ensures CountIn(s, key, lo, hi) <= limit * m
    decreases m
  {
    if m == 0 {
      CountInEmpty(s, key, lo, hi);
    } else {
      MulStep(limit, m);
      Commute(m, span + 1);
      MulStep(span + 1, m);
      Commute(m - 1, span + 1);
      assert InSpan(s, key, lo, span) <= limit;
      CountInSplit(s, key, lo, lo + span, hi);
      CountInCover(s, key, lo + span + 1, hi, limit, span, m - 1);
    }
  }

  // ---------------------------------------------------------------------------------------
  // Pigeonhole: entries of few keys, few of each, are few

  function Without<K(==)>(s: seq<Entry<K>>, key: K): seq<Entry<K>> {
    if s == [] then [] else Without(Front(s), key) + (if Last(s).key == key then [] else [Last(s)])
  }

  lemma {:induction false} WithoutCounts<K>(s: seq<Entry<K>>, key: K, since: int)
    requires forall i :: 0 <= i < |s| ==> s[i].ts >= since
    ensures |s| == CountSince(s, key, since) + |Without(s, key)|
    ensures forall i :: 0 <= i < |Without(s, key)| ==> Without(s, key)[i] in s && Without(s, key)[i].key != key
  {
    if s != [] {
      WithoutCounts(Front(s), key, since);
    }
  }

  lemma {:induction false} WithoutKeepsOthers<K>(s: seq<Entry<K>>, key: K, k: K, since: int)
    requires k != key
    ensures CountSince(Without(s, key), k, since) == CountSince(s, k, since)
  {
    if s != [] {
      WithoutKeepsOthers(Front(s), key, k, since);
      CountConcat(Without(Front(s), key), if Last(s).key == key then [] else [Last(s)], k, since);
    }
  }

  ghost predicate AllOf<K>(s: seq<Entry<K>>, keys: set<K>, since: int) {
    forall i :: 0 <= i < |s| ==> s[i].ts >= since && s[i].key in keys
  }

  ghost predicate FewOfEach<K>(s: seq<Entry<K>>, keys: set<K>, limit: nat, since: int) {
    forall k :: k in keys ==> CountSince(s, k, since) <= limit
  }

  lemma {:induction false} Pigeonhole<K>(s: seq<Entry<K>>, keys: set<K>, limit: nat, since: int)
    requires AllOf(s, keys, since) && FewOfEach(s, keys, limit, since)
    ensures |s| <= limit * |keys|
    decreases |keys|
  {
    if s != [] {
      var k := s[0].key;
      var rest := Without(s, k);
      WithoutCounts(s, k, since);
      forall i | 0 <= i < |rest|
        ensures rest[i].ts >= since && rest[i].key in keys - {k}
      {
        assert rest[i] in s;
      }
      forall x | x in keys - {k}
        ensures CountSince(rest, x, since) <= limit
      {
        WithoutKeepsOthers(s, k, x, since);
      }
      Pigeonhole(rest, keys - {k}, limit, since);
      MulStep(limit, |keys|);
    }
  }

  // ---------------------------------------------------------------------------------------
  // Without any assumption on the keys

  predicate IsSuffix<T(==)>(s: seq<T>, all: seq<T>) { |s| <= |all| && s == all[|all| - |s|..] }

  lemma {:induction false} SuffixOfSuffix<T>(s: seq<T>, t: seq<T>, all: seq<T>)
    requires IsSuffix(s, t) && IsSuffix(t, all)
    ensures IsSuffix(s, all)
  {
  }

  lemma {:induction false} SuffixSnoc<T>(s: seq<T>, all: seq<T>, x: T)
    requires IsSuffix(s, all)
    ensures IsSuffix(s + [x], all + [x])
  {
  }

  lemma {:induction false} AdmitKeepsSuffix<K>(c: Config<K>, ring: seq<Entry<K>>, admitted: seq<Entry<K>>, q: Req<K>)
    requires 0 < c.capacity && |ring| <= c.capacity && IsSuffix(ring, admitted)
    ensures var (after, ok) := Admit(ring, c.capacity, c.limit, c.unset, q.key, q.now);
            IsSuffix(after, if ok then admitted + [Entry(q.key, q.now)] else admitted)
  {
    var live, e := Evict(ring, q.now), Entry(q.key, q.now);
    EvictShape(ring, q.now);
    SuffixOfSuffix(live, ring, admitted);
    SuffixSnoc(live, admitted, e);
    if live != [] {
      SuffixOfSuffix(live[1..], live, admitted);
      SuffixSnoc(live[1..], admitted, e);
    }
  }

  /** The ring holds the most recent admitted requests. */
  lemma {:induction false} RingIsSuffix<K>(c: Config<K>, reqs: seq<Req<K>>)
    requires c.capacity > 0
    ensures IsSuffix(ServeAll(c, reqs).ring, ServeAll(c, reqs).admitted)
  {
    if reqs != [] {
      RingIsSuffix(c, Front(reqs));
      var before := ServeAll(c, Front(reqs));
      AdmitKeepsSuffix(c, before.ring, before.admitted, Last(reqs));
    }
  }

  /** Each admitted entry stems from a request. */
  lemma {:induction false} AdmittedWasRequested<K>(c: Config<K>, reqs: seq<Req<K>>, i: nat) returns (j: nat)
    requires c.capacity > 0 && i < |ServeAll(c, reqs).admitted|
    ensures j < |reqs| && ServeAll(c, reqs).admitted[i] == Entry(reqs[j].key, reqs[j].now)
  {
    var before := ServeAll(c, Front(reqs));
    if i < |before.admitted| {
      j := AdmittedWasRequested(c, Front(reqs), i);
    } else {
      j := |reqs| - 1;
    }
  }

  lemma {:induction false} CountSuffix<K>(s: seq<Entry<K>>, n: nat, key: K, since: int)
    requires n <= |s|
    ensures CountSince(s[n..], key, since) <= CountSince(s, key, since)
    ensures CountSince(s[..n], key, since) <= CountSince(s, key, since)
  {
    assert s == s[..n] + s[n..];
    CountConcat(s[..n], s[n..], key, since);
  }

  lemma {:induction false} RefusalByRing<K>(ring: seq<Entry<K>>, c: Config<K>, key: K, now: int)
    requires c.capacity > 0 && |ring| <= c.capacity
    requires !Admit(ring, c.capacity, c.limit, c.unset, key, now).1
    ensures CountSince(ring, key, now - WINDOW) >= c.limit
  {
    var live := Evict(ring, now);
    ScannedShape(live, c.unset);
    CountSuffix(live, |Scanned(live, c.unset)|, key, now - WINDOW);
    EvictKeepsCount(ring, key, now);
  }

  lemma {:induction false} RefusalBySuffix<K>(c: Config<K>, ring: seq<Entry<K>>, admitted: seq<Entry<K>>, key: K,
                                              now: int)
    requires c.capacity > 0 && |ring| <= c.capacity && IsSuffix(ring, admitted)
    requires !Admit(ring, c.capacity, c.limit, c.unset, key, now).1
    ensures CountSince(admitted, key, now - WINDOW) >= c.limit
  {
    RefusalByRing(ring, c, key, now);
    CountSuffix(admitted, |admitted| - |ring|, key, now - WINDOW);
  }

  /** Whatever the load, a request is refused only if `limit` were admitted in the last 60 seconds. */
  lemma {:induction false} RefusalIsJustified<K>(c: Config<K>, reqs: seq<Req<K>>)
    requires c.capacity > 0 && reqs != [] && !IsAdmitted(c, reqs)
    ensures CountSince(ServeAll(c, Front(reqs)).admitted, Last(reqs).key, Last(reqs).now - WINDOW) >= c.limit
  {
    var before, q := ServeAll(c, Front(reqs)), Last(reqs);
    RingIsSuffix(c, Front(reqs));
    RefusalBySuffix(c, before.ring, before.admitted, q.key, q.now);
  }

  /** Times of entries step back by at most `d`. */
  ghost predicate LaggedEntries<K>(s: seq<Entry<K>>, d: nat) {
    forall i, j :: 0 <= i <= j < |s| ==> s[i].ts <= s[j].ts + d
  }

  lemma {:induction false} HistoryIsLagged<K>(c: Config<K>, reqs: seq<Req<K>>, d: nat)
    requires c.capacity > 0 && Lagged(reqs, d)
    ensures LaggedEntries(ServeAll(c, reqs).admitted, d)
    decreases |reqs|
  {
    if reqs != [] {
      HistoryIsLagged(c, Front(reqs), d);
      var h := ServeAll(c, Front(reqs)).admitted;
      forall i | 0 <= i < |h|
        ensures h[i].ts <= Last(reqs).now + d
      {
        var j := AdmittedWasRequested(c, Front(reqs), i);
        assert reqs[j] == Front(reqs)[j];
      }
    }
  }

  ghost predicate Past<K>(s: seq<Entry<K>>, t: int) {
    forall i :: 0 <= i < |s| ==> s[i].ts <= t
  }

  // ---------------------------------------------------------------------------------------
  // The ring by itself

  /** Each entry came when fewer than `limit` of its key, less than 61 seconds older, were before it. */
  predicate Spaced<K(==)>(s: seq<Entry<K>>, limit: nat) {
    s == [] || (Spaced(Front(s), limit) && CountSince(Front(s), Last(s).key, Last(s).ts - WINDOW) < limit)
  }

  lemma {:induction false} SpacedTail<K>(s: seq<Entry<K>>, limit: nat)
    requires Spaced(s, limit) && s != []
    ensures Spaced(s[1..], limit)
  {
    if |s| > 1 {
      var front, last := Front(s), Last(s);
      SpacedTail(front, limit);
      assert Front(s[1..]) == front[1..] && Last(s[1..]) == last;
      CountSuffix(front, 1, last.key, last.ts - WINDOW);
    }
  }

  lemma {:induction false} SpacedSuffix<K>(s: seq<Entry<K>>, n: nat, limit: nat)
    requires Spaced(s, limit) && n <= |s|
    ensures Spaced(s[n..], limit)
  {
    if n == 0 {
      assert s[n..] == s;
    } else {
      SpacedTail(s, limit);
      SpacedSuffix(s[1..], n - 1, limit);
      assert s[n..] == s[1..][n - 1..];
    }
  }

  /** In such a sequence no 61 seconds hold more than the limit of a key, in whatever order they stand. */
  lemma {:induction false} SpacedCountIn<K>(s: seq<Entry<K>>, key: K, lo: int, limit: nat)
    requires Spaced(s, limit)
    ensures CountIn(s, key, lo, lo + WINDOW) <= limit
  {
    if s != [] {
      SpacedCountIn(Front(s), key, lo, limit);
      if Last(s).key == key && lo <= Last(s).ts <= lo + WINDOW {
        CountInBySince(Front(s), key, lo, lo + WINDOW, Last(s).ts - WINDOW);
      }
    }
  }

  lemma {:induction false} SpacedIsWithin<K(!new)>(s: seq<Entry<K>>, limit: nat)
    requires Spaced(s, limit)
    ensures AtMost(s, limit, WINDOW)
  {
    forall key, lo
      ensures InSpan(s, key, lo, WINDOW) <= limit
    {
      SpacedCountIn(s, key, lo, limit);
    }
  }

  lemma {:induction false} RingIsScanned<K>(c: Config<K>, reqs: seq<Req<K>>, n: nat)
    requires c.capacity > 0 && NeverUnset(c, reqs) && n <= |ServeAll(c, reqs).ring|
    ensures Scanned(ServeAll(c, reqs).ring[n..], c.unset) == ServeAll(c, reqs).ring[n..]
  {
    var ring, h := ServeAll(c, reqs).ring, ServeAll(c, reqs).admitted;
    RingIsSuffix(c, reqs);
    forall i | 0 <= i < |ring[n..]|
      ensures !c.unset(ring[n..][i])
    {
      assert ring[n..][i] == h[|h| - |ring| + n + i];
      var j := AdmittedWasRequested(c, reqs, |h| - |ring| + n + i);
    }
    ScansAll(ring[n..], c.unset);
  }

  /** The ring is spaced at all times, whatever is thrown out of it. */
  lemma {:induction false} RingIsSpaced<K>(c: Config<K>, reqs: seq<Req<K>>)
    requires c.capacity > 0 && NeverUnset(c, reqs)
    ensures Spaced(ServeAll(c, reqs).ring, c.limit)
  {
    if reqs != [] {
      RingIsSpaced(c, Front(reqs));
      var ring := ServeAll(c, Front(reqs)).ring;
      EvictShape(ring, Last(reqs).now);
      RingIsScanned(c, Front(reqs), |ring| - |Evict(ring, Last(reqs).now)|);
      AdmitKeepsSpaced(c, ring, Last(reqs).key, Last(reqs).now);
    }
  }

  lemma {:induction false} AdmitKeepsSpaced<K>(c: Config<K>, ring: seq<Entry<K>>, key: K, now: int)
    requires c.capacity > 0 && |ring| <= c.capacity && Spaced(ring, c.limit)
    requires Scanned(Evict(ring, now), c.unset) == Evict(ring, now)
    ensures Spaced(Admit(ring, c.capacity, c.limit, c.unset, key, now).0, c.limit)
  {
    var live, e := Evict(ring, now), Entry(key, now);
    SpacedEvict(ring, now, c.limit);
    if CountSince(live, key, now - WINDOW) < c.limit {
      SpacedSnoc(live, e, c.limit);
      if live != [] {
        SpacedShift(live, e, c.limit);
      }
    }
  }

  lemma {:induction false} SpacedEvict<K>(s: seq<Entry<K>>, now: int, limit: nat)
    requires Spaced(s, limit)
    ensures Spaced(Evict(s, now), limit)
  {
    EvictShape(s, now);
    SpacedSuffix(s, |s| - |Evict(s, now)|, limit);
  }

  lemma {:induction false} SpacedShift<K>(s: seq<Entry<K>>, e: Entry<K>, limit: nat)
    requires Spaced(s, limit) && CountSince(s, e.key, e.ts - WINDOW) < limit && s != []
    ensures Spaced(s[1..] + [e], limit)
  {
    SpacedTail(s, limit);
    CountSuffix(s, 1, e.key, e.ts - WINDOW);
    SpacedSnoc(s[1..], e, limit);
  }

  lemma {:induction false} SpacedSnoc<K>(s: seq<Entry<K>>, e: Entry<K>, limit: nat)
    requires Spaced(s, limit) && CountSince(s, e.key, e.ts - WINDOW) < limit
    ensures Spaced(s + [e], limit)
  {
    assert Front(s + [e]) == s && Last(s + [e]) == e;
  }

  // ---------------------------------------------------------------------------------------
  // With few keys active at a time

  /** The ring holds what is left of the admitted requests at the latest time seen. */
  ghost predicate Exact<K>(c: Config<K>, reqs: seq<Req<K>>)
    requires c.capacity > 0
  {
    reqs != [] ==> ServeAll(c, reqs).ring == Evict(ServeAll(c, reqs).admitted, Latest(reqs))
  }

  ghost predicate WithinLimit<K(!new)>(c: Config<K>, reqs: seq<Req<K>>, d: nat)
    requires c.capacity > 0
  {
    AtMost(ServeAll(c, reqs).admitted, c.limit, WINDOW - d)
  }

  /** The admitted requests the last one finds in the ring. */
  function Live<K(==)>(c: Config<K>, reqs: seq<Req<K>>): seq<Entry<K>>
    requires c.capacity > 0 && reqs != []
  {
    Evict(ServeAll(c, Front(reqs)).admitted, Latest(reqs))
  }

  lemma {:induction false} RingIsLive<K>(c: Config<K>, reqs: seq<Req<K>>)
    requires c.capacity > 0 && reqs != [] && Exact(c, Front(reqs))
    ensures Evict(ServeAll(c, Front(reqs)).ring, Last(reqs).now) == Live(c, reqs)
  {
    if Front(reqs) != [] {
      var h, t, now := ServeAll(c, Front(reqs)).admitted, Latest(Front(reqs)), Last(reqs).now;
      if t <= now {
        EvictTwice(h, t, now);
      } else {
        EvictEarlier(h, t, now);
      }
    }
  }

  lemma {:induction false} LiveWasRequested<K>(c: Config<K>, reqs: seq<Req<K>>, i: nat) returns (j: nat)
    requires c.capacity > 0 && reqs != [] && i < |Live(c, reqs)|
    ensures j < |reqs| && Live(c, reqs)[i] == Entry(reqs[j].key, reqs[j].now)
  {
    var h := ServeAll(c, Front(reqs)).admitted;
    EvictShape(h, Latest(reqs));
    assert Live(c, reqs)[i] == h[|h| - |Live(c, reqs)| + i];
    j := AdmittedWasRequested(c, Front(reqs), |h| - |Live(c, reqs)| + i);
    assert reqs[j] == Front(reqs)[j];
  }

  lemma {:induction false} LiveIsScanned<K>(c: Config<K>, reqs: seq<Req<K>>)
    requires c.capacity > 0 && reqs != [] && NeverUnset(c, reqs)
    ensures Scanned(Live(c, reqs), c.unset) == Live(c, reqs)
  {
    forall i | 0 <= i < |Live(c, reqs)|
      ensures !c.unset(Live(c, reqs)[i])
    {
      var j := LiveWasRequested(c, reqs, i);
    }
    ScansAll(Live(c, reqs), c.unset);
  }

  /** What is live is led by an entry of the window, and no other is more than `d` seconds older. */
  lemma {:induction false} LiveIsRecent<K>(h: seq<Entry<K>>, t: int, d: nat)
    requires LaggedEntries(h, d)
    ensures forall i :: 0 <= i < |Evict(h, t)| ==> Evict(h, t)[i].ts >= t - WINDOW - d
  {
    EvictShape(h, t);
    var n := |h| - |Evict(h, t)|;
    forall i | 0 <= i < |Evict(h, t)|
      ensures Evict(h, t)[i].ts >= t - WINDOW - d
    {
      assert Evict(h, t)[0] == h[n] && Evict(h, t)[i] == h[n + i];
    }
  }

  /** What has been evicted is too old to count. */
  lemma {:induction false} LiveCounts<K>(h: seq<Entry<K>>, t: int, key: K, lo: int, since: int)
    requires t - WINDOW <= lo && since <= lo
    ensures CountSince(h, key, lo) <= CountSince(Evict(h, t), key, since)
  {
    var live := Evict(h, t);
    EvictShape(h, t);
    var gone := h[..|h| - |live|];
    assert h == gone + live;
    CountConcat(gone, live, key, lo);
    CountOld(gone, key, lo);
    CountSinceLater(live, key, since, lo);
  }

  lemma {:induction false} AdmitKeepsLimit<K(!new)>(limit: nat, h: seq<Entry<K>>, t: int, key: K, now: int, d: nat)
    requires d <= WINDOW && AtMost(h, limit, WINDOW - d) && t <= now + d
    requires CountSince(Evict(h, t), key, now - WINDOW) < limit
    ensures AtMost(h + [Entry(key, now)], limit, WINDOW - d)
  {
    var span := WINDOW - d;
    forall k, lo
      ensures InSpan(h + [Entry(key, now)], k, lo, span) <= limit
    {
      assert Front(h + [Entry(key, now)]) == h;
      assert InSpan(h, k, lo, span) <= limit;
      if k == key && lo <= now <= lo + span {
        CountInBySince(h, key, lo, lo + span, lo);
        LiveCounts(h, t, key, lo, now - WINDOW);
      }
    }
  }

  /** What a ring holds of a key in the time it may span. */
  lemma {:induction false} SpacedCount<K(!new)>(s: seq<Entry<K>>, limit: nat, t: int, key: K, d: nat)
    requires d <= WINDOW && Spaced(s, limit) && Past(s, t)
    ensures CountSince(s, key, t - WINDOW - d) <= limit * Shares(d)
  {
    var since := t - WINDOW - d;
    SpacedIsWithin(s, limit);
    SinceByCountIn(s, key, since, t);
    CountInCover(s, key, since, t, limit, WINDOW, Shares(d));
  }

  lemma {:induction false} LiveKeys<K>(c: Config<K>, reqs: seq<Req<K>>, d: nat)
    requires c.capacity > 0 && reqs != [] && d <= WINDOW && Lagged(reqs, d)
    ensures AllOf(Live(c, reqs) + [Entry(Last(reqs).key, Last(reqs).now)],
                  KeysSince(reqs, Last(reqs).now - WINDOW - d), Latest(reqs) - WINDOW - d)
  {
    var live, since := Live(c, reqs), Last(reqs).now - WINDOW - d;
    HistoryIsLagged(c, Front(reqs), d);
    LiveIsRecent(ServeAll(c, Front(reqs)).admitted, Latest(reqs), d);
    LatestLag(reqs, d);
    assert reqs[|reqs| - 1] == Last(reqs);
    forall i | 0 <= i < |live|
      ensures live[i].key in KeysSince(reqs, since)
    {
      var j := LiveWasRequested(c, reqs, i);
    }
  }

  lemma {:induction false} LatestLag<K>(reqs: seq<Req<K>>, d: nat)
    requires reqs != [] && Lagged(reqs, d)
    ensures Last(reqs).now <= Latest(reqs) <= Last(reqs).now + d
  {
    var i :| 0 <= i < |reqs| && reqs[i].now == Latest(reqs);
    assert reqs[|reqs| - 1] == Last(reqs);
  }

  lemma {:induction false} LiveIsPast<K>(c: Config<K>, reqs: seq<Req<K>>)
    requires c.capacity > 0 && reqs != []
    ensures Past(Live(c, reqs) + [Entry(Last(reqs).key, Last(reqs).now)], Latest(reqs))
  {
    assert reqs[|reqs| - 1] == Last(reqs);
    forall i | 0 <= i < |Live(c, reqs)|
      ensures Live(c, reqs)[i].ts <= Latest(reqs)
    {
      var j := LiveWasRequested(c, reqs, i);
    }
  }

  lemma {:induction false} LiveIsSpaced<K>(c: Config<K>, reqs: seq<Req<K>>)
    requires c.capacity > 0 && reqs != [] && NeverUnset(c, reqs) && Exact(c, Front(reqs))
    ensures Spaced(Live(c, reqs), c.limit)
  {
    RingIsSpaced(c, Front(reqs));
    RingIsLive(c, reqs);
    var ring := ServeAll(c, Front(reqs)).ring;
    EvictShape(ring, Last(reqs).now);
    SpacedSuffix(ring, |ring| - |Live(c, reqs)|, c.limit);
  }

  /** Few keys, and few entries of each. */
  lemma {:induction false} FewAreSpaced<K(!new)>(s: seq<Entry<K>>, limit: nat, t: int, keys: set<K>, d: nat)
    requires d <= WINDOW && Spaced(s, limit) && Past(s, t) && AllOf(s, keys, t - WINDOW - d)
    ensures |s| <= limit * Shares(d) * |keys|
  {
    forall x | x in keys
      ensures CountSince(s, x, t - WINDOW - d) <= limit * Shares(d)
    {
      SpacedCount(s, limit, t, x, d);
    }
    Pigeonhole(s, keys, limit * Shares(d), t - WINDOW - d);
  }

  /** So there is room for one more. */
  lemma {:induction false} LiveFits<K(!new)>(c: Config<K>, reqs: seq<Req<K>>, k: nat, d: nat)
    requires c.capacity > 0 && reqs != [] && d <= WINDOW && k * (c.limit * Shares(d)) <= c.capacity
    requires Lagged(reqs, d) && NeverUnset(c, reqs) && FewNow(reqs, k, d) && Exact(c, Front(reqs))
    requires CountSince(Live(c, reqs), Last(reqs).key, Last(reqs).now - WINDOW) < c.limit
    ensures |Live(c, reqs)| < c.capacity
  {
    var keys := KeysSince(reqs, Last(reqs).now - WINDOW - d);
    LiveKeys(c, reqs, d);
    LiveIsPast(c, reqs);
    LiveIsSpaced(c, reqs);
    var e := Entry(Last(reqs).key, Last(reqs).now);
    SpacedSnoc(Live(c, reqs), e, c.limit);
    FewAreSpaced(Live(c, reqs) + [e], c.limit, Latest(reqs), keys, d);
    MulMonotone(c.limit * Shares(d), |keys|, k);
  }

  lemma {:induction false} MulMonotone(a: nat, b: nat, c: nat)
    requires b <= c
    ensures a * b <= c * a
  {
  }

  lemma {:induction false} LaggedFront<K>(c: Config<K>, reqs: seq<Req<K>>, k: nat, d: nat)
    requires reqs != []
    ensures Lagged(reqs, d) ==> Lagged(Front(reqs), d)
    ensures NeverUnset(c, reqs) ==> NeverUnset(c, Front(reqs))
    ensures FewKeys(reqs, k, d) ==> FewKeys(Front(reqs), k, d) && FewNow(reqs, k, d)
  {
    if FewKeys(reqs, k, d) {
      assert reqs[..|reqs|] == reqs;
      forall n | 0 < n < |reqs|
        ensures FewNow(Front(reqs)[..n], k, d)
      {
        assert Front(reqs)[..n] == reqs[..n];
      }
    }
  }

  /** What `Admit` does on a ring whose live part is scanned in full and leaves room. */
  lemma {:induction false} AdmitByWindow<K>(c: Config<K>, ring: seq<Entry<K>>, h: seq<Entry<K>>, t: int, e: Entry<K>)
    requires c.capacity > 0 && |ring| <= c.capacity && t <= e.ts + WINDOW
    requires Evict(ring, e.ts) == Evict(h, t) && Scanned(Evict(h, t), c.unset) == Evict(h, t)
    requires CountSince(Evict(h, t), e.key, e.ts - WINDOW) < c.limit ==> |Evict(h, t)| < c.capacity
    ensures var (after, ok) := Admit(ring, c.capacity, c.limit, c.unset, e.key, e.ts);
            && (ok <==> CountSince(Evict(h, t), e.key, e.ts - WINDOW) < c.limit)
            && after == Evict(if ok then h + [e] else h, t)
  {
    EvictSnoc(h, e, t);
  }

  /** A request is decided by the live requests of its key in its window, and finds room when admitted. */
  ghost predicate Decided<K>(c: Config<K>, reqs: seq<Req<K>>)
    requires c.capacity > 0 && reqs != []
  {
    && (IsAdmitted(c, reqs) <==> CountSince(Live(c, reqs), Last(reqs).key, Last(reqs).now - WINDOW) < c.limit)
    && (IsAdmitted(c, reqs) ==> |Live(c, reqs)| < c.capacity)
  }

  lemma {:induction false} DecidesByWindow<K>(c: Config<K>, reqs: seq<Req<K>>)
    requires c.capacity > 0 && reqs != [] && Latest(reqs) <= Last(reqs).now + WINDOW
    requires Exact(c, Front(reqs)) && Scanned(Live(c, reqs), c.unset) == Live(c, reqs)
    requires CountSince(Live(c, reqs), Last(reqs).key, Last(reqs).now - WINDOW) < c.limit
             ==> |Live(c, reqs)| < c.capacity
    ensures Decided(c, reqs) && Exact(c, reqs)
  {
    var before := ServeAll(c, Front(reqs));
    RingIsLive(c, reqs);
    AdmitByWindow(c, before.ring, before.admitted, Latest(reqs), Entry(Last(reqs).key, Last(reqs).now));
  }

  lemma {:induction false} KeepsLimit<K(!new)>(c: Config<K>, reqs: seq<Req<K>>, d: nat)
    requires c.capacity > 0 && reqs != [] && d <= WINDOW && Lagged(reqs, d)
    requires Decided(c, reqs) && WithinLimit(c, Front(reqs), d)
    ensures WithinLimit(c, reqs, d)
  {
    if IsAdmitted(c, reqs) {
      LatestLag(reqs, d);
      AdmitKeepsLimit(c.limit, ServeAll(c, Front(reqs)).admitted, Latest(reqs), Last(reqs).key, Last(reqs).now, d);
    }
  }

  lemma {:induction false} RunIsExact<K(!new)>(c: Config<K>, reqs: seq<Req<K>>, k: nat, d: nat)
    requires c.capacity > 0 && d <= WINDOW && k * (c.limit * Shares(d)) <= c.capacity
    requires Lagged(reqs, d) && NeverUnset(c, reqs) && FewKeys(reqs, k, d)
    ensures Exact(c, reqs) && WithinLimit(c, reqs, d) && (reqs != [] ==> Decided(c, reqs))
  {
    if reqs != [] {
      LaggedFront(c, reqs, k, d);
      RunIsExact(c, Front(reqs), k, d);
      if CountSince(Live(c, reqs), Last(reqs).key, Last(reqs).now - WINDOW) < c.limit {
        LiveFits(c, reqs, k, d);
      }
      LatestLag(reqs, d);
      LiveIsScanned(c, reqs);
      DecidesByWindow(c, reqs);
      KeepsLimit(c, reqs, d);
    }
  }

  /** The decision in terms of all admitted requests. */
  lemma {:induction false} DecidesByHistory<K>(c: Config<K>, reqs: seq<Req<K>>, d: nat)
    requires c.capacity > 0 && reqs != [] && Lagged(reqs, d)
    requires IsAdmitted(c, reqs) ==> CountSince(Live(c, reqs), Last(reqs).key, Last(reqs).now - WINDOW) < c.limit
    ensures var h, q := ServeAll(c, Front(reqs)).admitted, Last(reqs);
            && (IsAdmitted(c, reqs) ==> CountSince(h, q.key, q.now - (WINDOW - d)) < c.limit)
            && (!IsAdmitted(c, reqs) ==> CountSince(h, q.key, q.now - WINDOW) >= c.limit)
  {
    if IsAdmitted(c, reqs) {
      LatestLag(reqs, d);
      LiveCounts(ServeAll(c, Front(reqs)).admitted, Latest(reqs), Last(reqs).key,
                 Last(reqs).now - (WINDOW - d), Last(reqs).now - WINDOW);
    } else {
      RefusalIsJustified(c, reqs);
    }
  }

  /**
    * The refinement. Let times step back by at most `d` seconds in lock order, and let the active keys be
    * few enough for the ring. Then the ring never drops a live request; a request is admitted only if fewer
    * than `limit` of its key were in the last 60 - d seconds, and refused only if so many were in the last
    * 60; and no closed interval of 60 - d seconds admits more than `limit` of a key. Without a lag that is
    * the sliding window exactly.
    */
  lemma {:induction false} RefinesWindow<K(!new)>(c: Config<K>, reqs: seq<Req<K>>, k: nat, d: nat, key: K, lo: int)
    requires c.capacity > 0 && reqs != [] && d <= WINDOW && k * (c.limit * Shares(d)) <= c.capacity
    requires Lagged(reqs, d) && NeverUnset(c, reqs) && FewKeys(reqs, k, d)
    ensures var h, q := ServeAll(c, Front(reqs)).admitted, Last(reqs);
            && (IsAdmitted(c, reqs) ==> CountSince(h, q.key, q.now - (WINDOW - d)) < c.limit)
            && (!IsAdmitted(c, reqs) ==> CountSince(h, q.key, q.now - WINDOW) >= c.limit)
            && (IsAdmitted(c, reqs) ==> |Live(c, reqs)| < c.capacity)
    ensures ServeAll(c, reqs).ring == Evict(ServeAll(c, reqs).admitted, Latest(reqs))
    ensures CountIn(ServeAll(c, reqs).admitted, key, lo, lo + WINDOW - d) <= c.limit
  {
    RunIsExact(c, reqs, k, d);
    DecidesByHistory(c, reqs, d);
    assert InSpan(ServeAll(c, reqs).admitted, key, lo, WINDOW - d) <= c.limit;
  }
}
