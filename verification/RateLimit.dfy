/**
  * The sliding-window limiter. The program has it twice, with the same loops over a ring buffer:
  * per (path, ip) for authentication routes, per user for the MCP endpoint. Here it is one class
  * over a key type, made with the two sets of constants below.
  */
module RateLimit {
  const WINDOW := 60

  datatype Entry<K> = Entry(key: K, ts: int)

  // ---------------------------------------------------------------------------------------
  // The ring as a sequence of entries, oldest first

  /** `evict_old`: entries leave from the front while they are older than the window. */
  function Evict<K>(s: seq<Entry<K>>, now: int): (r: seq<Entry<K>>)
    ensures |r| <= |s|
  {
    if s != [] && now - s[0].ts > WINDOW then Evict(s[1..], now) else s
  }

  /** What stays is a suffix, led by an entry of the window; everything before it is older. */
  lemma {:induction false} EvictShape<K>(s: seq<Entry<K>>, now: int)
    ensures var r := Evict(s, now);
            && r == s[|s| - |r|..]
            && (r != [] ==> now - r[0].ts <= WINDOW)
            && (forall i :: 0 <= i < |s| - |r| ==> now - s[i].ts > WINDOW)
  {
    if s != [] && now - s[0].ts > WINDOW {
      EvictShape(s[1..], now);
      assert forall i :: 1 <= i < |s| ==> s[i] == s[1..][i - 1];
    }
  }

  /** The entries a scan looks at: it breaks off at a slot that looks unset. */
  function Scanned<K>(s: seq<Entry<K>>, unset: Entry<K> -> bool): (r: seq<Entry<K>>)
    ensures |r| <= |s|
  {
    if s == [] || unset(s[0]) then [] else [s[0]] + Scanned(s[1..], unset)
  }

  lemma {:induction false} ScannedShape<K>(s: seq<Entry<K>>, unset: Entry<K> -> bool)
    ensures var r := Scanned(s, unset);
            && r == s[..|r|]
            && (forall i :: 0 <= i < |r| ==> !unset(r[i]))
            && (|r| < |s| ==> unset(s[|r|]))
  {
    if s != [] && !unset(s[0]) {
      ScannedShape(s[1..], unset);
    }
  }

  /** Entries of `key` not older than `since`. */
  function CountSince<K(==)>(s: seq<Entry<K>>, key: K, since: int): nat {
    if s == [] then 0
    else
      var last := s[|s| - 1];
      CountSince(s[..|s| - 1], key, since) + (if last.key == key && last.ts >= since then 1 else 0)
  }

  /** One request: what the ring holds after it, and whether it was admitted. */
  function Admit<K(==)>(s: seq<Entry<K>>, capacity: nat, limit: nat, unset: Entry<K> -> bool, key: K, now: int)
    : (r: (seq<Entry<K>>, bool))
    requires |s| <= capacity && capacity > 0
    ensures |r.0| <= capacity
  {
    var live := Evict(s, now);
    if CountSince(Scanned(live, unset), key, now - WINDOW) >= limit then (live, false)
    else if |live| == capacity then (live[1..] + [Entry(key, now)], true)
    else (live + [Entry(key, now)], true)
  }

  lemma {:induction false} CountStep<K>(s: seq<Entry<K>>, i: nat, key: K, since: int)
    requires i < |s|
    ensures CountSince(s[..i + 1], key, since)
            == CountSince(s[..i], key, since) + (if s[i].key == key && s[i].ts >= since then 1 else 0)
  {
    assert s[..i + 1][..i] == s[..i];
  }

  // ---------------------------------------------------------------------------------------
  // The ring itself

  /** An index past the end of the ring continues at its start. */
  function Wrap(x: nat, c: nat): int { if x < c then x else x - c }

  lemma {:induction false} ModIsWrap(x: nat, c: nat)
    requires x < 2 * c
    ensures x % c == Wrap(x, c)
  {
    var q := x / c;
    assert x == c * q + x % c;
    assert q >= 2 ==> c * q >= c * 2;
    assert q <= 0 ==> c * q <= 0;
  }

  function Slot(head: nat, i: nat, c: nat): (r: nat)
    requires head < c && i <= c
    ensures r < c && r == Wrap(head + i, c)
  {
    ModIsWrap(head + i, c);
    (head + i) % c
  }

  class Limiter<K(==)> {
    const capacity: nat
    const limit: nat
    const unset: Entry<K> -> bool
    const ring: array<Entry<K>>
    var head: nat
    var count: nat

    ghost predicate Valid() reads this {
      ring.Length == capacity && 0 < capacity && head < capacity && count <= capacity
    }

    ghost function Contents(): (s: seq<Entry<K>>)
      reads this, ring
      requires Valid()
      ensures |s| == count
      ensures forall i :: 0 <= i < count ==> s[i] == ring[Wrap(head + i, capacity)]
    {
      if head + count <= capacity then ring[head..head + count] else ring[head..] + ring[..head + count - capacity]
    }

    constructor (capacity: nat, limit: nat, unset: Entry<K> -> bool, blank: K)
      requires capacity > 0
      ensures Valid() && Contents() == [] && fresh(ring)
      ensures this.capacity == capacity && this.limit == limit && this.unset == unset
    {
      this.capacity, this.limit, this.unset := capacity, limit, unset;
      ring := new Entry<K>[capacity](_ => Entry(blank, 0));
      head, count := 0, 0;
    }

    method EvictOld(now: int)
      requires Valid()
      modifies this
      ensures Valid() && Contents() == Evict(old(Contents()), now)
    {
      while count > 0 && now - ring[head].ts > WINDOW
        invariant Valid() && Evict(Contents(), now) == Evict(old(Contents()), now)
        decreases count
      {
        DropOldest();
      }
      if count > 0 {
        assert Contents()[0] == ring[head];
      }
    }

    method DropOldest()
      requires Valid() && count > 0
      modifies this
      ensures Valid() && count == old(count) - 1
      ensures Contents() == old(Contents())[1..] && old(Contents())[0] == ring[old(head)]
    {
      ghost var before := Contents();
      assert before[0] == ring[head];
      head := Slot(head, 1, capacity);
      count := count - 1;
      assert Contents() == before[1..];
    }

    method CountMatches(key: K, now: int) returns (matches: nat)
      requires Valid()
      ensures matches == CountSince(Scanned(Contents(), unset), key, now - WINDOW)
    {
      matches := 0;
      var i := 0;
      ghost var s, scanned := Contents(), Scanned(Contents(), unset);
      ScannedShape(s, unset);
      while i < count
        invariant 0 <= i <= |scanned| && matches == CountSince(scanned[..i], key, now - WINDOW)
      {
        var idx := Slot(head, i, capacity);
        assert s[i] == ring[idx];
        if unset(ring[idx]) {
          break;
        }
        assert scanned[i] == ring[idx];
        CountStep(scanned, i, key, now - WINDOW);
        if now - ring[idx].ts <= WINDOW && ring[idx].key == key {
          matches := matches + 1;
        }
        i := i + 1;
      }
      assert scanned[..i] == scanned;
    }

    method Append(key: K, now: int)
      requires Valid() && count < capacity
      modifies this, ring
      ensures Valid() && Contents() == old(Contents()) + [Entry(key, now)]
    {
      ghost var before := Contents();
      var idx := Slot(head, count, capacity);
      ring[idx] := Entry(key, now);
      count := count + 1;
      assert Contents() == before + [Entry(key, now)];
    }

    /** The middleware: false stands for the 429 answer. */
    method Request(key: K, now: int) returns (admitted: bool)
      requires Valid()
      modifies this, ring
      ensures Valid()
      ensures (Contents(), admitted) == Admit(old(Contents()), capacity, limit, unset, key, now)
    {
      EvictOld(now);
      var matches := CountMatches(key, now);
      if matches >= limit {
        return false;
      }
      if count >= capacity {
        DropOldest();
      }
      Append(key, now);
      admitted := true;
    }
  }
}
