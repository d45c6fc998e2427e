/** Strings in buffers, up to a terminating zero. */
module CString {
  predicate Terminated<T(==)>(s: seq<T>, zero: T) { zero in s }

  /** What a buffer holds before its first zero. */
  function Text<T(==)>(s: seq<T>, zero: T): (r: seq<T>)
    requires Terminated(s, zero)
    ensures |r| < |s| && r == s[..|r|] && s[|r|] == zero && zero !in r
  {
    if s[0] == zero then []
    else
      assert s == [s[0]] + s[1..];
      [s[0]] + Text(s[1..], zero)
  }

  lemma {:induction false} TextIs<T>(s: seq<T>, zero: T, n: nat)
    requires n < |s| && s[n] == zero && zero !in s[..n]
    ensures Terminated(s, zero) && Text(s, zero) == s[..n]
  {
    assert s[n] in s;
    assert |Text(s, zero)| >= n;
  }

  method Strlen<T(==)>(a: array<T>, zero: T) returns (n: nat)
    requires Terminated(a[..], zero)
    ensures n == |Text(a[..], zero)|
  {
    n := 0;
    while a[n] != zero
      invariant n <= |Text(a[..], zero)|
      decreases a.Length - n
    {
      n := n + 1;
    }
  }
}
