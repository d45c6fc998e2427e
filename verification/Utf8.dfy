/**
  * Cutting a string in a buffer to a number of characters and of bytes without leaving half a character.
  * UTF-8 is as in RFC 3629, section 3.
  */
module Utf8 {
  import opened CString

  newtype byte = x: int | 0 <= x < 256

  // ---------------------------------------------------------------------------------------
  // The code's view of a sequence

  /** How long a sequence its first byte announces; a byte that begins none counts as one by itself. */
  function CharLen(c: byte): (n: nat)
    ensures 1 <= n <= 4
  {
    if c < 0x80 then 1
    else if 0xC0 <= c < 0xE0 then 2
    else if 0xE0 <= c < 0xF0 then 3
    else if 0xF0 <= c < 0xF8 then 4
    else 1
  }

  predicate IsTail(c: byte) { 0x80 <= c < 0xC0 }

  /** The continuation bytes announced at `at` are there, for a sequence of length `len`. */
  predicate Complete(s: seq<byte>, at: nat, len: nat)
    requires at < |s|
  {
    at + len <= |s| && forall i :: at < i < at + len ==> IsTail(s[i])
  }

  /** Where the string is cut if the scan has come to `at` and may take so many characters and bytes more. */
  function CutFrom(s: seq<byte>, at: nat, chars: nat, bytes: nat): (cut: nat)
    requires at <= |s|
    ensures at <= cut <= |s| && cut <= at + bytes
    decreases |s| - at
  {
    if at == |s| then at
    else
      var len := CharLen(s[at]);
      if !Complete(s, at, len) || chars == 0 || len > bytes then at
      else CutFrom(s, at + len, chars - 1, bytes - len)
  }

  /** The buffer holds `text` and a zero behind it. */
  ghost predicate Holds(str: array<byte>, text: seq<byte>)
    reads str
  {
    |text| < str.Length && str[..|text|] == text && str[|text|] == 0 && 0 !in text
  }

  method CompleteAt(str: array<byte>, at: nat, charLen: nat, ghost text: seq<byte>) returns (complete: bool)
    requires Holds(str, text) && at < |text| && charLen >= 1
    ensures complete == Complete(text, at, charLen)
  {
    complete := true;
    var i := 1;
    while i < charLen
      invariant 1 <= i <= charLen && at + i <= |text|
      invariant forall j :: at < j < at + i ==> IsTail(text[j])
    {
      if str[at + i] == 0 || !IsTail(str[at + i]) {
        return false;
      }
      assert text[at + i] == str[at + i];
      i := i + 1;
    }
  }

  /** The scan; it never looks behind the terminating zero. */
  method FindCut(str: array<byte>, maxChars: nat, maxBytes: nat, ghost text: seq<byte>) returns (at: nat)
    requires Holds(str, text)
    ensures at == CutFrom(text, 0, maxChars, maxBytes)
  {
    var chars := 0;
    at := 0;
    while str[at] != 0
      invariant at <= |text| && chars <= maxChars && at <= maxBytes
      invariant CutFrom(text, at, maxChars - chars, maxBytes - at) == CutFrom(text, 0, maxChars, maxBytes)
      decreases |text| - at
    {
      assert str[at] == text[at];
      var charLen := CharLen(str[at]);
      var complete := CompleteAt(str, at, charLen, text);
      if !complete {
        break;
      }
      if chars >= maxChars || at + charLen > maxBytes {
        break;
      }
      at := at + charLen;
      chars := chars + 1;
    }
  }

  /** `utf8_truncate` */
  method Truncate(str: array<byte>, maxChars: nat, maxBytes: nat)
    requires Terminated(str[..], 0)
    modifies str
    ensures Terminated(str[..], 0)
    ensures var text := old(Text(str[..], 0)); Text(str[..], 0) == text[..CutFrom(text, 0, maxChars, maxBytes)]
    ensures str[|Text(str[..], 0)| + 1..] == old(str[..])[|Text(str[..], 0)| + 1..]
  {
    if str[0] == 0 {
      return;
    }
    ghost var text := Text(str[..], 0);
    assert str[..|text|] == text;
    var at := FindCut(str, maxChars, maxBytes, text);
    assert str[..at] == text[..at];
    str[at] := 0;
    TextIs(str[..], 0, at);
  }

  // ---------------------------------------------------------------------------------------
  // UTF-8 proper

  /** UTF8-tail in RFC 3629, section 4. */
  predicate InTail(c: byte) { 0x80 <= c <= 0xBF }

  /** Whether the `n` bytes at `at` are one character: the octet sequences of RFC 3629, section 4. */
  predicate IsChar(s: seq<byte>, at: nat, n: nat) {
    && at + n <= |s|
    && (n == 1 || n == 2 || n == 3 || n == 4)
    && (n == 1 ==> s[at] < 0x80)
    && (n == 2 ==> 0xC2 <= s[at] < 0xE0 && InTail(s[at + 1]))
    && (n == 3 ==> 0xE0 <= s[at] < 0xF0 && InTail(s[at + 1]) && InTail(s[at + 2])
                   && (s[at] == 0xE0 ==> s[at + 1] >= 0xA0) && (s[at] == 0xED ==> s[at + 1] < 0xA0))
    && (n == 4 ==> 0xF0 <= s[at] <= 0xF4 && InTail(s[at + 1]) && InTail(s[at + 2]) && InTail(s[at + 3])
                   && (s[at] == 0xF0 ==> s[at + 1] >= 0x90) && (s[at] == 0xF4 ==> s[at + 1] < 0x90))
  }

  lemma {:induction false} CharIsComplete(s: seq<byte>, at: nat, n: nat)
    requires IsChar(s, at, n)
    ensures CharLen(s[at]) == n && Complete(s, at, n) && !IsTail(s[at])
  {
  }

  /**
    * What is no UTF-8: a byte that begins no sequence is passed over by itself, as one character; the first
    * bytes that RFC 3629 rules out are taken for what they announce.
    */
  lemma {:induction false} StrayBytes(s: seq<byte>, at: nat, chars: nat, bytes: nat)
    requires at < |s| && chars > 0 && bytes > 0
    ensures InTail(s[at]) || s[at] >= 0xF8 ==>
              CutFrom(s, at, chars, bytes) == CutFrom(s, at + 1, chars - 1, bytes - 1)
    ensures (s[at] == 0xC0 || s[at] == 0xC1) && bytes >= 2 && at + 2 <= |s| && InTail(s[at + 1]) ==>
              CutFrom(s, at, chars, bytes) == CutFrom(s, at + 2, chars - 1, bytes - 2)
    ensures 0xF5 <= s[at] <= 0xF7 && bytes >= 4 && at + 4 <= |s|
            && InTail(s[at + 1]) && InTail(s[at + 2]) && InTail(s[at + 3]) ==>
              CutFrom(s, at, chars, bytes) == CutFrom(s, at + 4, chars - 1, bytes - 4)
  {
  }

  /** Whatever the bytes are, the cut never falls inside a character. */
  lemma {:induction false} NeverSplits(s: seq<byte>, at: nat, chars: nat, bytes: nat, i: nat, n: nat)
    requires at <= |s| && IsChar(s, i, n) && (at <= i || i + n <= at)
    ensures CutFrom(s, at, chars, bytes) <= i || i + n <= CutFrom(s, at, chars, bytes)
    decreases |s| - at
  {
    if at < |s| && at <= i {
      CharIsComplete(s, i, n);
      var len := CharLen(s[at]);
      if Complete(s, at, len) && chars > 0 && len <= bytes {
        NeverSplits(s, at + len, chars - 1, bytes - len, i, n);
      }
    }
  }

  /** The text from `at` on is a sequence of characters. */
  predicate WellFormed(s: seq<byte>, at: nat)
    decreases |s| - at
  {
    at == |s| || (at < |s| && IsChar(s, at, CharLen(s[at])) && WellFormed(s, at + CharLen(s[at])))
  }

  /** Exactly `count` characters lead from `at` to `to`. */
  predicate Reaches(s: seq<byte>, at: nat, to: nat, count: nat)
    decreases count
  {
    if count == 0 then at == to
    else at < |s| && IsChar(s, at, CharLen(s[at])) && Reaches(s, at + CharLen(s[at]), to, count - 1)
  }

  /** In well-formed text the kept part is a number of whole characters within both limits, */
  lemma {:induction false} KeepsCharacters(s: seq<byte>, at: nat, chars: nat, bytes: nat) returns (count: nat)
    requires at <= |s| && WellFormed(s, at)
    ensures count <= chars && CutFrom(s, at, chars, bytes) <= at + bytes
    ensures Reaches(s, at, CutFrom(s, at, chars, bytes), count)
    decreases |s| - at
  {
    count := 0;
    if at < |s| {
      var len := CharLen(s[at]);
      CharIsComplete(s, at, len);
      if chars > 0 && len <= bytes {
        count := KeepsCharacters(s, at + len, chars - 1, bytes - len);
        count := count + 1;
      }
    }
  }

  /** and no other such part is longer. */
  lemma {:induction false} KeepsLongest(s: seq<byte>, at: nat, chars: nat, bytes: nat, to: nat, count: nat)
    requires at <= |s| && WellFormed(s, at)
    requires Reaches(s, at, to, count) && count <= chars && to <= at + bytes
    ensures to <= CutFrom(s, at, chars, bytes)
    decreases |s| - at
  {
    if count > 0 {
      var len := CharLen(s[at]);
      CharIsComplete(s, at, len);
      ReachesForward(s, at + len, to, count - 1);
      KeepsLongest(s, at + len, chars - 1, bytes - len, to, count - 1);
    }
  }

  lemma {:induction false} ReachesForward(s: seq<byte>, at: nat, to: nat, count: nat)
    requires Reaches(s, at, to, count)
    ensures at <= to
    decreases count
  {
    if count > 0 {
      ReachesForward(s, at + CharLen(s[at]), to, count - 1);
    }
  }

  /** Truncating once more with the same limits changes nothing. */
  lemma {:induction false} CutIsStable(s: seq<byte>, at: nat, chars: nat, bytes: nat)
    requires at <= |s|
    ensures var cut := CutFrom(s, at, chars, bytes); CutFrom(s[..cut], at, chars, bytes) == cut
    decreases |s| - at
  {
    var cut := CutFrom(s, at, chars, bytes);
    if at < |s| {
      var len := CharLen(s[at]);
      if Complete(s, at, len) && chars > 0 && len <= bytes {
        CutIsStable(s, at + len, chars - 1, bytes - len);
        assert Complete(s[..cut], at, len);
      }
    }
  }
}
