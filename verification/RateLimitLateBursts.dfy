/** With waits, too, one active key more than there is room for breaks the limit. */
module RateLimitLateBursts {
  import opened Prelude
  import opened Arith
  import opened RateLimit
  import opened RateLimitWindow
  import opened RateLimitRuns
  import opened RateLimitBursts

  // ---------------------------------------------------------------------------------------
  // What is served

  function ReqsOf<K>(s: seq<Entry<K>>): (r: seq<Req<K>>)
    ensures |r| == |s|
  {
    if s == [] then [] else ReqsOf(Front(s)) + [Req(Last(s).key, Last(s).ts)]
  }

  lemma {:induction false} ReqsOfConcat<K>(a: seq<Entry<K>>, b: seq<Entry<K>>)
    ensures ReqsOf(a + b) == ReqsOf(a) + ReqsOf(b)
  {
    if b == [] {
      assert a + b == a;
    } else {
      assert Front(a + b) == a + Front(b);
      ReqsOfConcat(a, Front(b));
    }
  }

  lemma {:induction false} ReqsOfEntries<K>(keys: seq<K>, t: int)
    ensures ReqsOf(EntriesAt(keys, t)) == ReqsAt(keys, t)
  {
    if keys != [] {
      assert Front(EntriesAt(keys, t)) == EntriesAt(Front(keys), t);
      ReqsOfEntries(Front(keys), t);
    }
  }

  /** No request comes so late that the first would be too old. */
  ghost predicate InOneWindow<K>(c: Config<K>, s: seq<Entry<K>>) {
    forall i :: 0 <= i < |s| ==> s[i].ts <= s[0].ts + WINDOW && !c.unset(s[i])
  }

  lemma {:induction false} AdmitSpaced<K>(c: Config<K>, s: seq<Entry<K>>, e: Entry<K>)
    requires |s| <= c.capacity && 0 < c.capacity && CountSince(s, e.key, e.ts - WINDOW) < c.limit
    requires s != [] ==> e.ts <= s[0].ts + WINDOW
    requires forall i :: 0 <= i < |s| ==> !c.unset(s[i])
    ensures Admit(s, c.capacity, c.limit, c.unset, e.key, e.ts)
            == (if |s| == c.capacity then s[1..] + [e] else s + [e], true)
  {
    assert Evict(s, e.ts) == s;
    ScansAll(s, c.unset);
  }

  lemma {:induction false} FrontInWindow<K>(c: Config<K>, s: seq<Entry<K>>)
    requires InOneWindow(c, s) && s != []
    ensures InOneWindow(c, Front(s)) && (Front(s) != [] ==> Last(s).ts <= Front(s)[0].ts + WINDOW)
  {
  }

  /** A spaced sequence that overflows the ring by one at most is admitted whole. */
  lemma {:induction false} SpacedServed<K>(c: Config<K>, s: seq<Entry<K>>)
    requires Spaced(s, c.limit) && InOneWindow(c, s) && |s| <= c.capacity + 1 && 0 < c.capacity
    ensures ServeAll(c, ReqsOf(s)) == Served(if |s| > c.capacity then s[1..] else s, s)
  {
    if s != [] {
      FrontInWindow(c, s);
      SpacedServed(c, Front(s));
      AdmitSpaced(c, Front(s), Last(s));
      ServeOneMore(c, ReqsOf(Front(s)), Req(Last(s).key, Last(s).ts));
      FrontAndLast(s);
    }
  }

  lemma {:induction false} CountAbsent<K>(keys: seq<K>, t: int, key: K, since: int, lo: int, hi: int)
    requires key !in keys
    ensures CountSince(EntriesAt(keys, t), key, since) == 0 && CountIn(EntriesAt(keys, t), key, lo, hi) == 0
  {
    if keys != [] {
      assert Front(EntriesAt(keys, t)) == EntriesAt(Front(keys), t);
      CountAbsent(Front(keys), t, key, since, lo, hi);
    }
  }

  lemma {:induction false} CountAtMost<K>(s: seq<Entry<K>>, key: K, since: int)
    ensures CountSince(s, key, since) <= |s|
  {
    if s != [] {
      CountAtMost(s[..|s| - 1], key, since);
    }
  }

  lemma {:induction false} CountInConcat<K>(a: seq<Entry<K>>, b: seq<Entry<K>>, key: K, lo: int, hi: int)
    ensures CountIn(a + b, key, lo, hi) == CountIn(a, key, lo, hi) + CountIn(b, key, lo, hi)
  {
    if b == [] {
      assert a + b == a;
    } else {
      assert Front(a + b) == a + Front(b);
      CountInConcat(a, Front(b), key, lo, hi);
    }
  }

  ghost predicate NoneCounts<K>(s: seq<Entry<K>>, keys: seq<K>, since: int) {
    forall i :: 0 <= i < |keys| ==> CountSince(s, keys[i], since) == 0
  }

  /** A block of requests whose keys have nothing to count keeps a sequence spaced. */
  lemma {:induction false} SpacedBlock<K>(s: seq<Entry<K>>, keys: seq<K>, t: int, limit: nat)
    requires Spaced(s, limit) && BelowLimit(keys, limit) && NoneCounts(s, keys, t - WINDOW)
    ensures Spaced(s + EntriesAt(keys, t), limit)
  {
    if keys == [] {
      assert s + EntriesAt(keys, t) == s;
    } else {
      assert CountSince(s, keys[|keys| - 1], t - WINDOW) == 0;
      SpacedBlock(s, Front(keys), t, limit);
      SpacedOneMore(s, Front(keys), Last(keys), t, limit);
      assert s + EntriesAt(keys, t) == s + EntriesAt(Front(keys), t) + [Entry(Last(keys), t)];
    }
  }

  lemma {:induction false} SpacedOneMore<K>(s: seq<Entry<K>>, keys: seq<K>, x: K, t: int, limit: nat)
    requires Spaced(s + EntriesAt(keys, t), limit) && CountSince(s, x, t - WINDOW) == 0 && Times(keys, x) < limit
    ensures Spaced(s + EntriesAt(keys, t) + [Entry(x, t)], limit)
  {
    CountConcat(s, EntriesAt(keys, t), x, t - WINDOW);
    TimesAreCounted(keys, x, t);
    SpacedSnoc(s + EntriesAt(keys, t), Entry(x, t), limit);
  }

  // ---------------------------------------------------------------------------------------
  // The crowd: one key first, the others just before and just after its window

  /** `n` requests of `a` at `t`, those of `first` locked after it but timed before, `second` 60 seconds later. */
  function Crowd<K>(a: K, n: nat, first: seq<K>, second: seq<K>, t: int): seq<Entry<K>> {
    EntriesAt(Repeated(a, n), t) + (EntriesAt(first, t - 1) + EntriesAt(second, t + WINDOW))
  }

  lemma {:induction false} NoneOfOthers<K>(a: K, n: nat, keys: seq<K>, t: int, since: int)
    requires a !in keys
    ensures NoneCounts(EntriesAt(Repeated(a, n), t), keys, since)
  {
    forall i | 0 <= i < |keys|
      ensures CountSince(EntriesAt(Repeated(a, n), t), keys[i], since) == 0
    {
      CountAbsent(Repeated(a, n), t, keys[i], since, 0, 0);
    }
  }

  lemma {:induction false} NoneOfBefore<K>(s: seq<Entry<K>>, first: seq<K>, keys: seq<K>, t: int)
    requires NoneCounts(s, keys, t)
    ensures NoneCounts(s + EntriesAt(first, t - 1), keys, t)
  {
    forall i | 0 <= i < |keys|
      ensures CountSince(s + EntriesAt(first, t - 1), keys[i], t) == 0
    {
      AllAt(first, t - 1);
      CountOld(EntriesAt(first, t - 1), keys[i], t);
      CountConcat(s, EntriesAt(first, t - 1), keys[i], t);
    }
  }

  lemma {:induction false} HeadIsSpaced<K>(a: K, n: nat, t: int)
    ensures Spaced(EntriesAt(Repeated(a, n), t), n)
  {
    RepeatedBelow(a, n, n);
    var none: seq<Entry<K>> := [];
    assert none + EntriesAt(Repeated(a, n), t) == EntriesAt(Repeated(a, n), t);
    SpacedBlock(none, Repeated(a, n), t, n);
  }

  lemma {:induction false} CrowdIsSpaced<K>(a: K, n: nat, first: seq<K>, second: seq<K>, t: int)
    requires a !in first && a !in second && BelowLimit(first, n) && BelowLimit(second, n)
    ensures Spaced(Crowd(a, n, first, second, t), n)
  {
    var head, middle, last := EntriesAt(Repeated(a, n), t), EntriesAt(first, t - 1), EntriesAt(second, t + WINDOW);
    HeadIsSpaced(a, n, t);
    NoneOfOthers(a, n, first, t, t - 1 - WINDOW);
    SpacedBlock(head, first, t - 1, n);
    NoneOfOthers(a, n, second, t, t);
    NoneOfBefore(head, first, second, t);
    SpacedBlock(head + middle, second, t + WINDOW, n);
    assert (head + middle) + last == head + (middle + last);
  }

  /** None of these keys looks unset in the time of the crowd. */
  ghost predicate SetAround<K(!new)>(c: Config<K>, keys: seq<K>, t: int) {
    forall key, u :: key in keys && t - 1 <= u <= t + WINDOW ==> !c.unset(Entry(key, u))
  }

  lemma {:induction false} CrowdInWindow<K(!new)>(c: Config<K>, keys: seq<K>, n: nat, first: seq<K>, second: seq<K>,
                                                  t: int)
    requires SetAround(c, keys, t) && keys != [] && n > 0
    requires forall key :: key in first || key in second ==> key in keys
    ensures InOneWindow(c, Crowd(keys[0], n, first, second, t))
  {
    AllAt(Repeated(keys[0], n), t);
    AllAt(first, t - 1);
    AllAt(second, t + WINDOW);
  }

  /** The last request finds one of its own thrown out. */
  lemma {:induction false} LastIsAdmitted<K>(c: Config<K>, a: K, first: seq<K>, second: seq<K>, t: int, now: int)
    requires 0 < c.limit <= c.capacity && a !in first && a !in second
    requires |Crowd(a, c.limit, first, second, t)| == c.capacity + 1
    ensures Admit(Crowd(a, c.limit, first, second, t)[1..], c.capacity, c.limit, c.unset, a, now).1
  {
    var n, all, since := c.limit, Crowd(a, c.limit, first, second, t), now - WINDOW;
    var head, middle, last := EntriesAt(Repeated(a, n), t), EntriesAt(first, t - 1), EntriesAt(second, t + WINDOW);
    assert all[1..] == head[1..] + (middle + last);
    CountConcat(head[1..], middle + last, a, since);
    CountConcat(middle, last, a, since);
    CountAbsent(first, t - 1, a, since, 0, 0);
    CountAbsent(second, t + WINDOW, a, since, 0, 0);
    CountAtMost(head[1..], a, since);
    if !Admit(all[1..], c.capacity, c.limit, c.unset, a, now).1 {
      RefusalByRing(all[1..], c, a, now);
    }
  }

  lemma {:induction false} CrowdCount<K>(a: K, n: nat, first: seq<K>, second: seq<K>, t: int, now: int)
    requires a !in first && a !in second && t <= now
    ensures CountIn(Crowd(a, n, first, second, t) + [Entry(a, now)], a, t, now) == n + 1
  {
    var all := Crowd(a, n, first, second, t);
    var head, middle, last := EntriesAt(Repeated(a, n), t), EntriesAt(first, t - 1), EntriesAt(second, t + WINDOW);
    assert Front(all + [Entry(a, now)]) == all;
    CountInConcat(head, middle + last, a, t, now);
    CountInConcat(middle, last, a, t, now);
    CountRepeated(a, t, n, t, now);
    CountAbsent(first, t - 1, a, 0, t, now);
    CountAbsent(second, t + WINDOW, a, 0, t, now);
  }

  lemma {:induction false} CrowdServed<K(!new)>(c: Config<K>, keys: seq<K>, first: seq<K>, second: seq<K>, t: int,
                                                now: int)
    requires 0 < c.limit <= c.capacity && keys != [] && SetAround(c, keys, t) && t <= now
    requires BelowLimit(first, c.limit) && BelowLimit(second, c.limit) && keys[0] !in first && keys[0] !in second
    requires forall key :: key in first || key in second ==> key in keys
    requires c.limit + |first| + |second| == c.capacity + 1
    ensures var reqs := ReqsOf(Crowd(keys[0], c.limit, first, second, t)) + [Req(keys[0], now)];
            CountIn(ServeAll(c, reqs).admitted, keys[0], t, now) == c.limit + 1
  {
    var all := Crowd(keys[0], c.limit, first, second, t);
    CrowdIsSpaced(keys[0], c.limit, first, second, t);
    CrowdInWindow(c, keys, c.limit, first, second, t);
    SpacedServed(c, all);
    LastIsAdmitted(c, keys[0], first, second, t, now);
    ServeOneMore(c, ReqsOf(all), Req(keys[0], now));
    CrowdCount(keys[0], c.limit, first, second, t, now);
  }

  // ---------------------------------------------------------------------------------------
  // Its run

  /** All of `keys` read the clock, a second later `burst` is served at once, and then they are. */
  function Nest<K>(keys: seq<K>, burst: seq<K>): seq<Event<K>> {
    if keys == [] then [Ticked(1)] + AtOnce(burst)
    else [Captured(|keys|, Last(keys))] + (Nest(Front(keys), burst) + [Locked(|keys|)])
  }

  /** A thread that waits while others run for a second. */
  lemma {:induction false} AroundRuns<K>(w: World<K>, n: nat, x: K, inner: seq<Event<K>>, served: seq<Req<K>>, d: nat)
    requires d >= 1 && n !in w.waiting
    requires var w1 := Step(w, Captured(n, x));
             IsRun(w1, inner) && Prompt(w1, inner, d) && Run(w1, inner) == World(w.clock + 1, w1.waiting, served)
    ensures var es := [Captured(n, x)] + (inner + [Locked(n)]);
            && IsRun(w, es) && Prompt(w, es, d)
            && Run(w, es) == World(w.clock + 1, w.waiting, served + [Req(x, w.clock)])
  {
    var w1 := Step(w, Captured(n, x));
    var w2 := Run(w1, inner);
    OneStep(w2, Locked(n), [], d);
    assert [Locked(n)] + [] == [Event<K>.Locked(n)];
    RunConcat(w1, inner, [Locked(n)], d);
    OneStep(w, Captured(n, x), inner + [Locked(n)], d);
    assert w1.waiting - {n} == w.waiting;
  }

  lemma {:induction false} NestRuns<K>(w: World<K>, keys: seq<K>, burst: seq<K>, d: nat)
    requires d >= 1 && forall tid :: tid in w.waiting ==> tid > |keys|
    ensures IsRun(w, Nest(keys, burst)) && Prompt(w, Nest(keys, burst), d)
    ensures Run(w, Nest(keys, burst))
            == World(w.clock + 1, w.waiting, w.locked + (ReqsAt(burst, w.clock + 1) + ReqsAt(keys, w.clock)))
    decreases |keys|
  {
    if keys == [] {
      AtOnceRuns(Step(w, Ticked(1)), burst, d);
      OneStep(w, Ticked(1), AtOnce(burst), d);
      assert ReqsAt(burst, w.clock + 1) + ReqsAt(keys, w.clock) == ReqsAt(burst, w.clock + 1);
    } else {
      var n, x, inner := |keys|, Last(keys), Nest(Front(keys), burst);
      var served := w.locked + (ReqsAt(burst, w.clock + 1) + ReqsAt(Front(keys), w.clock));
      NestRuns(Step(w, Captured(n, x)), Front(keys), burst, d);
      AroundRuns(w, n, x, inner, served, d);
      assert served + [Req(x, w.clock)]
             == w.locked + (ReqsAt(burst, w.clock + 1) + (ReqsAt(Front(keys), w.clock) + [Req(x, w.clock)]));
    }
  }

  /** `a` reads the clock and waits d seconds, while `second` is served 60 seconds after the burst. */
  function Finale<K>(a: K, second: seq<K>, d: nat): seq<Event<K>>
    requires d <= WINDOW
  {
    [Ticked(WINDOW - d)] + ([Captured(1, a)] + ([Ticked(d)] + (AtOnce(second) + [Locked(1)])))
  }

  lemma {:induction false} FinaleRuns<K>(w: World<K>, a: K, second: seq<K>, d: nat)
    requires w.waiting == map[] && d <= WINDOW
    ensures IsRun(w, Finale(a, second, d)) && Prompt(w, Finale(a, second, d), d)
    ensures Run(w, Finale(a, second, d)).locked
            == w.locked + ReqsAt(second, w.clock + WINDOW) + [Req(a, w.clock + WINDOW - d)]
  {
    var w1 := Step(w, Ticked(WINDOW - d));
    var w2 := Step(w1, Captured(1, a));
    var w3 := Step(w2, Ticked(d));
    AtOnceRuns(w3, second, d);
    var w4 := Run(w3, AtOnce(second));
    OneStep(w4, Locked(1), [], d);
    assert [Locked(1)] + [] == [Event<K>.Locked(1)];
    RunConcat(w3, AtOnce(second), [Locked(1)], d);
    var rest := AtOnce(second) + [Locked(1)];
    OneStep(w2, Ticked(d), rest, d);
    OneStep(w1, Captured(1, a), [Ticked(d)] + rest, d);
    OneStep(w, Ticked(WINDOW - d), [Captured(1, a)] + ([Ticked(d)] + rest), d);
  }

  function CrowdEvents<K>(a: K, n: nat, first: seq<K>, second: seq<K>, d: nat): seq<Event<K>>
    requires d <= WINDOW
  {
    Nest(first, Repeated(a, n)) + Finale(a, second, d)
  }

  lemma {:induction false} CrowdRuns<K>(a: K, n: nat, first: seq<K>, second: seq<K>, t: int, d: nat)
    requires 1 <= d <= WINDOW
    ensures var w: World<K>, es := Start(t - 1), CrowdEvents(a, n, first, second, d);
            && IsRun(w, es) && Prompt(w, es, d)
            && Run(w, es).locked == ReqsOf(Crowd(a, n, first, second, t)) + [Req(a, t + WINDOW - d)]
  {
    var w: World<K> := Start(t - 1);
    NestRuns(w, first, Repeated(a, n), d);
    var nested := Run(w, Nest(first, Repeated(a, n)));
    FinaleRuns(nested, a, second, d);
    RunConcat(w, Nest(first, Repeated(a, n)), Finale(a, second, d), d);
    CrowdReqs(a, n, first, second, t);
  }

  lemma {:induction false} CrowdReqs<K>(a: K, n: nat, first: seq<K>, second: seq<K>, t: int)
    ensures ReqsOf(Crowd(a, n, first, second, t))
            == [] + (ReqsAt(Repeated(a, n), t) + ReqsAt(first, t - 1)) + ReqsAt(second, t + WINDOW)
  {
    var head, middle, last := EntriesAt(Repeated(a, n), t), EntriesAt(first, t - 1), EntriesAt(second, t + WINDOW);
    ReqsOfConcat(head, middle + last);
    ReqsOfConcat(middle, last);
    ReqsOfEntries(Repeated(a, n), t);
    ReqsOfEntries(first, t - 1);
    ReqsOfEntries(second, t + WINDOW);
  }

  // ---------------------------------------------------------------------------------------
  // Any keys, and the two limiters

  /** The other keys' blocks, cut to the two lengths that overflow the ring by one. */
  lemma {:induction false} CrowdParts<K>(others: seq<K>, limit: nat, room: nat) returns (first: seq<K>, second: seq<K>)
    requires Distinct(others) && room <= 2 * |Blocks(others, limit)|
    ensures |first| + |second| == room && BelowLimit(first, limit) && BelowLimit(second, limit)
    ensures forall key :: key in first || key in second ==> key in others
  {
    var all := Blocks(others, limit);
    BlocksBelowLimit(others, limit);
    var n := if room <= |all| then room else |all|;
    first, second := all[..n], all[..room - n];
    BelowLimitPrefix(all, n, limit);
    BelowLimitPrefix(all, room - n, limit);
  }

  lemma {:induction false} OthersFill<K>(keys: seq<K>, limit: nat, capacity: nat)
    requires 0 < limit <= capacity < limit * (2 * |keys| - 1)
    ensures keys != [] && capacity + 1 - limit <= 2 * |Blocks(keys[1..], limit)|
  {
    MulOrder(limit, 2 * |keys| - 1, 0);
    BlocksLength(keys[1..], limit);
    TwoBlocks(limit, |keys|);
  }

  lemma {:induction false} TwoBlocks(limit: nat, k: nat)
    ensures limit * (2 * k - 1) == limit + 2 * (limit * (k - 1))
  {
    Distribute(limit, 2 * (k - 1), -1);
    Swap(limit, 2, k - 1);
  }

  /**
    * With waits of at most d >= 1 seconds, `k` keys of which limit * (2k - 1) requests overflow the ring
    * can get `limit + 1` requests of one of them through in 60 - d seconds.
    */
  lemma {:induction false} LateCrowd<K(!new)>(c: Config<K>, keys: seq<K>, t: int, d: nat) returns (es: seq<Event<K>>)
    requires 0 < c.limit <= c.capacity < c.limit * (2 * |keys| - 1) && 1 <= d <= WINDOW
    requires Distinct(keys) && SetAround(c, keys, t)
    ensures keys != [] && IsRun(Start(t - 1), es) && Prompt(Start(t - 1), es, d)
    ensures forall q :: q in Run(Start(t - 1), es).locked ==> q.key in keys
    ensures CountIn(ServeAll(c, Run(Start(t - 1), es).locked).admitted, keys[0], t, t + WINDOW - d) == c.limit + 1
  {
    OthersFill(keys, c.limit, c.capacity);
    OthersDiffer(keys);
    var first, second := CrowdParts(keys[1..], c.limit, c.capacity + 1 - c.limit);
    es := CrowdEvents(keys[0], c.limit, first, second, d);
    CrowdRuns(keys[0], c.limit, first, second, t, d);
    CrowdServed(c, keys, first, second, t, t + WINDOW - d);
    CrowdKeys(keys, c.limit, first, second, t);
  }

  lemma {:induction false} OthersDiffer<K>(keys: seq<K>)
    requires Distinct(keys) && keys != []
    ensures Distinct(keys[1..]) && keys[0] !in keys[1..]
    ensures forall key :: key in keys[1..] ==> key in keys
  {
  }

  lemma {:induction false} CrowdKeys<K>(keys: seq<K>, n: nat, first: seq<K>, second: seq<K>, t: int)
    requires keys != [] && forall key :: key in first || key in second ==> key in keys
    ensures forall q :: q in ReqsOf(Crowd(keys[0], n, first, second, t)) ==> q.key in keys
  {
    CrowdReqs(keys[0], n, first, second, t);
    ReqsAre(Repeated(keys[0], n), keys, t);
    ReqsAre(first, keys, t - 1);
    ReqsAre(second, keys, t + WINDOW);
  }

  /** 52 addresses on one path and waits of at most d >= 1 seconds: 11 requests of the first in 60 - d. */
  lemma {:induction false} AuthCrowd(path: string, ips: seq<string>, t: int, d: nat) returns (es: seq<Event<Route>>)
    requires |ips| == 52 && Addresses(ips) && t > 1 && 1 <= d <= WINDOW
    ensures IsRun(Start(t - 1), es) && Prompt(Start(t - 1), es, d)
    ensures var admitted := ServeAll(AuthConfig(), Run(Start(t - 1), es).locked).admitted;
            CountIn(admitted, RouteKey(path, ips[0]), t, t + 60 - d) == 11
  {
    AddressesAreKeys(path, ips);
    es := LateCrowd(AuthConfig(), RouteKeys(path, ips), t, d);
  }

  /** Two users and such waits: 121 requests of the first in 60 - d seconds. */
  lemma {:induction false} McpCrowd(users: seq<int>, t: int, d: nat) returns (es: seq<Event<int>>)
    requires |users| == 2 && users[0] != users[1] && users[0] > 0 && users[1] > 0 && 1 <= d <= WINDOW
    ensures IsRun(Start(t - 1), es) && Prompt(Start(t - 1), es, d)
    ensures CountIn(ServeAll(McpConfig(), Run(Start(t - 1), es).locked).admitted, users[0], t, t + 60 - d) == 121
  {
    es := LateCrowd(McpConfig(), users, t, d);
  }
}
