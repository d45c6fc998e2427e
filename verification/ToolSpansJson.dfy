/** Reading the recorded tool calls back: the buffer is a JSON array of exactly the recorded calls. */
module ToolSpansJson {
  import opened Prelude
  import opened ToolSpans
  import opened JsonText

  // ---------------------------------------------------------------------------------------
  // A parser for arrays of such objects

  function Strip(prefix: string, s: string): Option<string> {
    if prefix <= s then Some(s[|prefix|..]) else None
  }

  function DigitPrefix(s: string): (r: string)
    ensures r <= s
  {
    if s != "" && IsDigit(s[0]) then
      assert s == [s[0]] + s[1..];
      [s[0]] + DigitPrefix(s[1..])
    else ""
  }

  function Value(s: string): nat {
    if s == "" then 0
    else Value(s[..|s| - 1]) * 10 + (var c := s[|s| - 1]; if IsDigit(c) then c as int - '0' as int else 0)
  }

  function ParseNat(s: string): (r: Option<(int, string)>)
    ensures r.Some? ==> r.value.0 >= 0
  {
    var d := DigitPrefix(s);
    if d == "" then None else Some((Value(d), s[|d|..]))
  }

  function ParseInt(s: string): Option<(int, string)> {
    match Strip("-", s)
    case Some(rest) =>
      (match ParseNat(rest)
       case Some((n, rest')) => Some((-n, rest'))
       case None => None)
    case None =>
      (match ParseNat(s)
       case Some((n, rest)) => Some((n, rest))
       case None => None)
  }

  /** A name up to its closing quote. */
  function NamePrefix(s: string): (r: string)
    ensures r <= s
  {
    if s != "" && s[0] != '"' then
      assert s == [s[0]] + s[1..];
      [s[0]] + NamePrefix(s[1..])
    else ""
  }

  function ParseBytes(name: string, latency: int, s: string): Option<(Span, string)> {
    match ParseNat(s)
    case None => None
    case Some((bytes, rest)) =>
      match Strip(",\"ok\":1}", rest)
      case Some(rest') => Some((Span(name, latency, bytes, true), rest'))
      case None =>
        match Strip(",\"ok\":0}", rest)
        case Some(rest') => Some((Span(name, latency, bytes, false), rest'))
        case None => None
  }

  function ParseLatency(name: string, s: string): Option<(Span, string)> {
    match ParseInt(s)
    case None => None
    case Some((latency, rest)) =>
      match Strip(",\"bytes\":", rest)
      case Some(rest') => ParseBytes(name, latency, rest')
      case None => None
  }

  function ParseSpan(s: string): (r: Option<(Span, string)>) {
    match Strip("{\"name\":\"", s)
    case None => None
    case Some(rest) =>
      var name := NamePrefix(rest);
      match Strip("\",\"latency_ms\":", rest[|name|..])
      case Some(rest') => ParseLatency(name, rest')
      case None => None
  }

  type Parser = string -> Option<(Span, string)>

  /** One or more objects with commas between them, and the closing bracket. */
  function ParseItems(p: Parser, s: string, fuel: nat): Option<seq<Span>>
    decreases fuel
  {
    if fuel == 0 then None
    else
      match p(s)
      case None => None
      case Some((span, rest)) =>
        if rest == "]" then Some([span])
        else
          match Strip(",", rest)
          case None => None
          case Some(rest') =>
            match ParseItems(p, rest', fuel - 1)
            case Some(spans) => Some([span] + spans)
            case None => None
  }

  /** Each object takes at least one character, so the length of the text bounds their number. */
  function Parse(s: string): Option<seq<Span>> {
    if s == "[]" then Some([])
    else
      match Strip("[", s)
      case Some(rest) => ParseItems(ParseSpan, rest, |s|)
      case None => None
  }

  // ---------------------------------------------------------------------------------------
  // Numbers

  predicate AllDigits(s: string) { forall i :: 0 <= i < |s| ==> IsDigit(s[i]) }

  lemma {:induction false} ValueOfDigits(n: nat)
    ensures AllDigits(Digits(n)) && Value(Digits(n)) == n
  {
    var s, last := Digits(n), DIGITS[n % 10];
    DigitValue(n % 10);
    if n >= 10 {
      ValueOfDigits(n / 10);
      assert s[..|s| - 1] == Digits(n / 10);
    } else {
      assert s == [last] && s[..0] == "";
    }
  }

  lemma {:induction false} DigitValue(d: nat)
    requires d < 10
    ensures IsDigit(DIGITS[d]) && DIGITS[d] as int - '0' as int == d
  {
  }

  lemma {:induction false} DigitPrefixOf(d: string, rest: string)
    requires AllDigits(d) && (rest == "" || !IsDigit(rest[0]))
    ensures DigitPrefix(d + rest) == d
  {
    if d == "" {
      assert d + rest == rest;
    } else {
      assert (d + rest)[1..] == d[1..] + rest;
      DigitPrefixOf(d[1..], rest);
    }
  }

  lemma {:induction false} ParsesNat(n: nat, rest: string)
    requires rest == "" || !IsDigit(rest[0])
    ensures ParseNat(Digits(n) + rest) == Some((n, rest))
  {
    ValueOfDigits(n);
    DigitPrefixOf(Digits(n), rest);
    assert (Digits(n) + rest)[|Digits(n)|..] == rest;
  }

  lemma {:induction false} ParsesNegative(n: int, rest: string)
    requires n >= 0
    requires rest == "" || !IsDigit(rest[0])
    ensures ParseInt("-" + Digits(n) + rest) == Some((-n, rest))
  {
    ParsesNat(n, rest);
    assert "-" + Digits(n) + rest == "-" + (Digits(n) + rest);
    StripsPrefix("-", Digits(n) + rest);
  }

  lemma {:induction false} ParsesPositive(n: nat, rest: string)
    requires rest == "" || !IsDigit(rest[0])
    ensures ParseInt(Digits(n) + rest) == Some((n, rest))
  {
    ParsesNat(n, rest);
    ValueOfDigits(n);
    var s := Digits(n) + rest;
    assert s[0] == Digits(n)[0];
    assert Strip("-", s).None?;
  }

  lemma {:induction false} ParsesInt(n: int, rest: string)
    requires rest == "" || !IsDigit(rest[0])
    ensures ParseInt(Number(n) + rest) == Some((n, rest))
  {
    if n < 0 {
      ParsesNegative(-n, rest);
    } else {
      ParsesPositive(n, rest);
    }
  }

  lemma {:induction false} StripsPrefix(prefix: string, rest: string)
    ensures Strip(prefix, prefix + rest) == Some(rest)
  {
    assert (prefix + rest)[|prefix|..] == rest;
  }

  lemma {:induction false} NamePrefixOf(name: string, rest: string)
    requires IsPlain(name) && rest != "" && rest[0] == '"'
    ensures NamePrefix(name + rest) == name && (name + rest)[|name|..] == rest
  {
    if name == "" {
      assert name + rest == rest;
    } else {
      assert (name + rest)[1..] == name[1..] + rest;
      NamePrefixOf(name[1..], rest);
    }
  }

  // ---------------------------------------------------------------------------------------
  // The round trip

  function Tail(s: Span): string { if s.ok then ",\"ok\":1}" else ",\"ok\":0}" }

  lemma {:induction false} ParsesBytes(s: Span, rest: string)
    ensures ParseBytes(s.name, s.latency, Digits(s.bytes) + (Tail(s) + rest)) == Some((s, rest))
  {
    ParsesNat(s.bytes, Tail(s) + rest);
    StripsPrefix(Tail(s), rest);
    if !s.ok {
      assert (Tail(s) + rest)[6] == '0' && ",\"ok\":1}"[6] == '1';
      assert !(",\"ok\":1}" <= Tail(s) + rest);
    }
  }

  lemma {:induction false} ParsesLatency(s: Span, rest: string)
    ensures ParseLatency(s.name, Number(s.latency) + (",\"bytes\":" + (Digits(s.bytes) + (Tail(s) + rest))))
            == Some((s, rest))
  {
    var more := Digits(s.bytes) + (Tail(s) + rest);
    ParsesInt(s.latency, ",\"bytes\":" + more);
    StripsPrefix(",\"bytes\":", more);
    ParsesBytes(s, rest);
  }

  lemma {:induction false} EntryThen(s: Span, rest: string)
    ensures Entry(s) + rest
            == "{\"name\":\"" + (s.name + ("\",\"latency_ms\":"
               + (Number(s.latency) + (",\"bytes\":" + (Digits(s.bytes) + (Tail(s) + rest))))))
  {
    var a, b, c := Number(s.latency), Digits(s.bytes), if s.ok then "1" else "0";
    assert Tail(s) == ",\"ok\":" + (c + "}");
    Flatten("{\"name\":\"", s.name, "\",\"latency_ms\":", a, ",\"bytes\":", b, ",\"ok\":" + (c + "}"), rest);
  }

  lemma {:induction false} Flatten(a: string, b: string, c: string, d: string, e: string, f: string, g: string,
                                   rest: string)
    ensures (a + (b + (c + (d + (e + (f + g)))))) + rest == a + (b + (c + (d + (e + (f + (g + rest))))))
  {
    assert (f + g) + rest == f + (g + rest);
    assert (e + (f + g)) + rest == e + ((f + g) + rest);
    assert (d + (e + (f + g))) + rest == d + ((e + (f + g)) + rest);
    assert (c + (d + (e + (f + g)))) + rest == c + ((d + (e + (f + g))) + rest);
    assert (b + (c + (d + (e + (f + g))))) + rest == b + ((c + (d + (e + (f + g)))) + rest);
  }

  lemma {:induction false} ParsesSpan(s: Span, rest: string)
    requires IsPlain(s.name)
    ensures ParseSpan(Entry(s) + rest) == Some((s, rest))
  {
    EntryThen(s, rest);
    var fields := Number(s.latency) + (",\"bytes\":" + (Digits(s.bytes) + (Tail(s) + rest)));
    StripsPrefix("{\"name\":\"", s.name + ("\",\"latency_ms\":" + fields));
    NamePrefixOf(s.name, "\",\"latency_ms\":" + fields);
    StripsPrefix("\",\"latency_ms\":", fields);
    ParsesLatency(s, rest);
  }

  lemma {:induction false} JoinCons(e: string, entries: seq<string>)
    requires entries != []
    ensures Join([e] + entries) == e + ("," + Join(entries))
  {
    var front, last := entries[..|entries| - 1], entries[|entries| - 1];
    assert ([e] + entries)[..|entries|] == [e] + front;
    if front == [] {
      assert [e] + front == [e];
    } else {
      JoinCons(e, front);
    }
  }

  lemma {:induction false} JoinMore(entries: seq<string>)
    requires |entries| > 1
    ensures Join(entries) + "]" == entries[0] + ("," + (Join(entries[1..]) + "]"))
  {
    assert entries == [entries[0]] + entries[1..];
    JoinCons(entries[0], entries[1..]);
  }

  /** The parser reads each of the entries off the front of any text. */
  ghost predicate Reads(p: Parser, entries: seq<string>, spans: seq<Span>) {
    |entries| == |spans| && forall i, rest :: 0 <= i < |spans| ==> p(entries[i] + rest) == Some((spans[i], rest))
  }

  lemma {:induction false} ParsesItems(p: Parser, entries: seq<string>, spans: seq<Span>, fuel: nat)
    requires Reads(p, entries, spans) && spans != [] && fuel >= |spans|
    ensures ParseItems(p, Join(entries) + "]", fuel) == Some(spans)
    decreases |spans|
  {
    if |spans| == 1 {
      assert p(entries[0] + "]") == Some((spans[0], "]"));
      assert spans == [spans[0]];
    } else {
      var more := Join(entries[1..]) + "]";
      ParsesItems(p, entries[1..], spans[1..], fuel - 1);
      JoinMore(entries);
      assert p(entries[0] + ("," + more)) == Some((spans[0], "," + more));
      ParsesFirst(p, entries[0], spans[0], spans[1..], more, fuel);
      assert spans == [spans[0]] + spans[1..];
    }
  }

  lemma {:induction false} ParsesFirst(p: Parser, entry: string, s: Span, rest: seq<Span>, more: string, fuel: nat)
    requires fuel > 0 && p(entry + ("," + more)) == Some((s, "," + more))
    requires ParseItems(p, more, fuel - 1) == Some(rest)
    ensures ParseItems(p, entry + ("," + more), fuel) == Some([s] + rest)
  {
    StripsPrefix(",", more);
    assert ("," + more)[0] == ',';
  }

  ghost predicate AllPlain(spans: seq<Span>) { forall i :: 0 <= i < |spans| ==> IsPlain(spans[i].name) }

  lemma {:induction false} SpanParserReads(spans: seq<Span>)
    requires AllPlain(spans)
    ensures Reads(ParseSpan, Entries(spans), spans)
  {
    forall i, rest | 0 <= i < |spans|
      ensures ParseSpan(Entries(spans)[i] + rest) == Some((spans[i], rest))
    {
      ParsesSpan(spans[i], rest);
    }
  }

  lemma {:induction false} JoinIsLong(entries: seq<string>)
    requires forall i :: 0 <= i < |entries| ==> entries[i] != ""
    ensures |Join(entries)| >= |entries|
  {
    if |entries| > 1 {
      JoinIsLong(entries[..|entries| - 1]);
    }
  }

  /** Reading the rendered array gives back the calls. */
  lemma {:induction false} ParsesRendered(spans: seq<Span>)
    requires AllPlain(spans)
    ensures Parse(Render(spans)) == Some(spans)
  {
    var entries := Entries(spans);
    if spans == [] {
      assert Render(spans) == "[]";
    } else {
      JoinIsLong(entries);
      assert Bracketed(entries) == "[" + (Join(entries) + "]");
      StripsPrefix("[", Join(entries) + "]");
      SpanParserReads(spans);
      ParsesItems(ParseSpan, entries, spans, |Bracketed(entries)|);
    }
  }

  /** So the buffer can be read back at any time, as the calls recorded so far. */
  lemma {:induction false} BufferParses(calls: seq<Span>)
    requires AllPlain(calls) && forall i :: 0 <= i < |calls| ==> |Entry(calls[i])| < ENTRY
    ensures Parse(AddedAll(Entries(calls))) == Some(calls[..Recorded(Entries(calls))])
  {
    var k := Recorded(Entries(calls));
    HoldsPrefix(Entries(calls));
    assert Entries(calls)[..k] == Entries(calls[..k]);
    ParsesRendered(calls[..k]);
  }
}
