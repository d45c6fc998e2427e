/** The fixed buffer that records tool calls as a JSON array. */
module ToolSpans {
  import opened Prelude
  import opened CString

  const SIZE := 3072
  const ENTRY := 256
  const DIGITS := "0123456789"

  datatype Span = Span(name: string, latency: int, bytes: nat, ok: bool)

  // ---------------------------------------------------------------------------------------
  // Writing

  function Digits(n: nat): (s: string)
    ensures s != ""
  {
    (if n < 10 then "" else Digits(n / 10)) + [DIGITS[n % 10]]
  }

  function Number(n: int): string { if n < 0 then "-" + Digits(-n) else Digits(n) }

  function Entry(s: Span): string {
    "{\"name\":\"" + (s.name + ("\",\"latency_ms\":" + (Number(s.latency) + (",\"bytes\":" + (Digits(s.bytes)
    + (",\"ok\":" + ((if s.ok then "1" else "0") + "}")))))))
  }

  /** `snprintf` into room for `room` characters and a zero. */
  function Cut(s: string, room: nat): string { if |s| <= room then s else s[..room] }

  /** The closing bracket is taken off, */
  function Open(text: string): (r: string)
    ensures |r| <= |text| && r == text[..|r|]
  {
    if text != "" && text[|text| - 1] == ']' then text[..|text| - 1] else text
  }

  /** and the new entry comes after a comma, unless it is the first, with a bracket behind it. */
  function Suffix(len: nat, entry: string): string {
    (if len <= 2 then "" else ",") + Cut(entry, ENTRY - 1) + "]"
  }

  /** `ai_trace_add_tool_span`: the buffer's text with a new entry, as far as there is room. */
  function Added(text: string, entry: string): (r: string)
    requires |text| < SIZE
    ensures |r| < SIZE
  {
    if |text| + ENTRY >= SIZE then text
    else Open(text) + Cut(Suffix(|text|, entry), SIZE - 1 - |Open(text)|)
  }

  function Join(entries: seq<string>): string {
    if entries == [] then ""
    else if |entries| == 1 then entries[0]
    else Join(entries[..|entries| - 1]) + ("," + entries[|entries| - 1])
  }

  function Entries(spans: seq<Span>): (entries: seq<string>)
    ensures |entries| == |spans|
    ensures forall i :: 0 <= i < |spans| ==> entries[i] == Entry(spans[i])
  {
    seq(|spans|, i requires 0 <= i < |spans| => Entry(spans[i]))
  }

  function Bracketed(entries: seq<string>): string { "[" + Join(entries) + "]" }

  function Render(spans: seq<Span>): string { Bracketed(Entries(spans)) }

  function AddedAll(entries: seq<string>): (r: string)
    ensures |r| < SIZE
  {
    if entries == [] then "[]" else Added(AddedAll(entries[..|entries| - 1]), entries[|entries| - 1])
  }

  predicate Fits(entries: seq<string>) { |Bracketed(entries)| + ENTRY < SIZE }

  /** How many of the calls are recorded: recording stops for good when an entry might not fit. */
  function Recorded(entries: seq<string>): (k: nat)
    ensures k <= |entries|
  {
    if entries == [] then 0
    else
      var front := entries[..|entries| - 1];
      if Recorded(front) == |front| && Fits(front) then |entries| else Recorded(front)
  }

  predicate Short(e: string) { 0 < |e| < ENTRY }

  lemma {:induction false} JoinSnoc(entries: seq<string>, e: string)
    ensures Join(entries + [e]) == Join(entries) + ((if entries == [] then "" else ",") + e)
  {
    if entries == [] {
      assert entries + [e] == [e] && "" + ("" + e) == e;
    } else {
      assert (entries + [e])[..|entries|] == entries;
    }
  }

  /** With room left, the closing bracket gives way to the new entry and a bracket after it. */
  lemma {:induction false} AddedBrackets(entries: seq<string>, e: string)
    requires Fits(entries) && Short(e) && (entries != [] ==> Join(entries) != "")
    ensures Added(Bracketed(entries), e) == Bracketed(entries + [e])
  {
    var joined, sep := Join(entries), if entries == [] then "" else ",";
    var text := "[" + joined + "]";
    assert text[..|text| - 1] == "[" + joined && text[|text| - 1] == ']';
    JoinSnoc(entries, e);
    assert ("[" + joined) + (sep + e + "]") == "[" + (joined + (sep + e)) + "]";
  }

  lemma {:induction false} JoinNotEmpty(entries: seq<string>)
    requires entries != [] && Short(entries[|entries| - 1])
    ensures Join(entries) != ""
  {
  }

  lemma {:induction false} RecordedStops(entries: seq<string>)
    ensures Recorded(entries) < |entries| ==> !Fits(entries[..Recorded(entries)])
  {
    if entries != [] {
      var front := entries[..|entries| - 1];
      RecordedStops(front);
      assert entries[..Recorded(front)] == front[..Recorded(front)];
    }
  }

  /** Once recording has stopped, a further call changes nothing. */
  lemma {:induction false} FullStaysFull(entries: seq<string>, e: string)
    requires !Fits(entries) && |Bracketed(entries)| < SIZE
    ensures Added(Bracketed(entries), e) == Bracketed(entries)
  {
  }

  lemma {:induction false} HoldsOneMore(front: seq<string>, last: string)
    requires AddedAll(front) == Bracketed(front[..Recorded(front)]) && Short(last)
    requires forall i :: 0 <= i < |front| ==> Short(front[i])
    ensures Added(AddedAll(front), last) == Bracketed((front + [last])[..Recorded(front + [last])])
  {
    var all, k := front + [last], Recorded(front);
    assert all[..|front|] == front && all[..|all|] == all && all[..k] == front[..k];
    RecordedStops(front);
    if k == |front| && Fits(front) {
      assert front[..k] == front;
      if front != [] {
        JoinNotEmpty(front);
      }
      AddedBrackets(front, last);
    } else {
      FullStaysFull(front[..k], last);
    }
  }

  /** At all times the buffer holds exactly a first part of the calls, and everything that fits. */
  lemma {:induction false} HoldsPrefix(entries: seq<string>)
    requires forall i :: 0 <= i < |entries| ==> Short(entries[i])
    ensures AddedAll(entries) == Bracketed(entries[..Recorded(entries)])
    ensures Recorded(entries) < |entries| ==> !Fits(entries[..Recorded(entries)])
  {
    RecordedStops(entries);
    if entries == [] {
      assert Bracketed([]) == "[]";
    } else {
      HoldsPrefix(entries[..|entries| - 1]);
      HoldsOneMore(entries[..|entries| - 1], entries[|entries| - 1]);
      assert entries == entries[..|entries| - 1] + [entries[|entries| - 1]];
    }
  }

  /** A short call is recorded exactly if the text so far leaves 256 of the buffer's 3072 characters. */
  lemma {:induction false} RecordedExactlyWhileRoom(entries: seq<string>, e: string)
    requires Short(e) && forall i :: 0 <= i < |entries| ==> Short(entries[i])
    ensures |AddedAll(entries + [e])| < 3072
    ensures if |AddedAll(entries)| < 2816 then AddedAll(entries + [e]) == Bracketed(entries + [e])
            else AddedAll(entries + [e]) == AddedAll(entries)
  {
    var all := entries + [e];
    assert all[..|entries|] == entries;
    HoldsPrefix(entries);
    RecordedStops(entries);
    if |AddedAll(entries)| < 2816 {
      assert entries[..Recorded(entries)] == entries;
      if entries != [] {
        JoinNotEmpty(entries);
      }
      AddedBrackets(entries, e);
    }
  }

  lemma {:induction false} AddedSnoc(entries: seq<string>, e: string)
    ensures AddedAll(entries + [e]) == Added(AddedAll(entries), e)
  {
    assert (entries + [e])[..|entries|] == entries;
  }

  class Spans {
    const buffer: array<char>
    ghost var calls: seq<Span>

    ghost predicate Valid()
      reads this, buffer
    {
      buffer.Length == SIZE && Terminated(buffer[..], '\0') && Text(buffer[..], '\0') == AddedAll(Entries(calls))
    }

    constructor ()
      ensures Valid() && fresh(buffer) && calls == []
    {
      buffer := new char[SIZE](_ => '\0');
      calls := [];
      new;
      buffer[0], buffer[1] := '[', ']';
      assert buffer[..2] == "[]";
      TextIs(buffer[..], '\0', 2);
    }

    /** Writes what fits of `text` at `at`, and the zero. */
    method Print(at: nat, text: string)
      requires at < buffer.Length == SIZE && '\0' !in text && '\0' !in buffer[..at]
      modifies buffer
      ensures Terminated(buffer[..], '\0') && Text(buffer[..], '\0') == old(buffer[..at]) + Cut(text, SIZE - 1 - at)
    {
      var shown := Cut(text, SIZE - 1 - at);
      forall i | 0 <= i < |shown| {
        buffer[at + i] := shown[i];
      }
      buffer[at + |shown|] := '\0';
      assert buffer[..at + |shown|] == old(buffer[..at]) + shown;
      TextIs(buffer[..], '\0', at + |shown|);
    }

    method AddToolSpan(name: Option<string>, latency: int, bytes: nat, ok: bool)
      requires Valid() && (name.Some? ==> '\0' !in name.value)
      modifies this, buffer
      ensures Valid()
      ensures calls == if name.None? then old(calls) else old(calls) + [Span(name.value, latency, bytes, ok)]
    {
      if name.None? {
        return;
      }
      var s := Span(name.value, latency, bytes, ok);
      assert Entries(calls + [s]) == Entries(calls) + [Entry(s)];
      AddedSnoc(Entries(calls), Entry(s));
      NoZero(s);
      AddEntry(Entry(s));
      calls := calls + [s];
    }

    method AddEntry(entry: string)
      requires buffer.Length == SIZE && Terminated(buffer[..], '\0') && '\0' !in entry
      modifies buffer
      ensures Terminated(buffer[..], '\0') && Text(buffer[..], '\0') == Added(old(Text(buffer[..], '\0')), entry)
    {
      ghost var text := Text(buffer[..], '\0');
      var cur := Strlen(buffer, '\0');
      if cur + ENTRY >= SIZE {
        return;
      }
      var pos := if cur > 0 && buffer[cur - 1] == ']' then cur - 1 else cur;
      assert text == buffer[..cur] && Open(text) == buffer[..pos];
      Print(pos, Suffix(cur, entry));
    }
  }

  lemma {:induction false} NoZeroConcat(a: string, b: string)
    requires '\0' !in a && '\0' !in b
    ensures '\0' !in a + b
  {
  }

  lemma {:induction false} NoZero(s: Span)
    requires '\0' !in s.name
    ensures '\0' !in Entry(s)
  {
    DigitsHaveNoZero(s.bytes);
    DigitsHaveNoZero(if s.latency < 0 then -s.latency else s.latency);
    var ok := ",\"ok\":" + ((if s.ok then "1" else "0") + "}");
    NoZeroConcat(Digits(s.bytes), ok);
    NoZeroConcat(",\"bytes\":", Digits(s.bytes) + ok);
    var bytes := ",\"bytes\":" + (Digits(s.bytes) + ok);
    NoZeroConcat(Number(s.latency), bytes);
    NoZeroConcat("\",\"latency_ms\":", Number(s.latency) + bytes);
    var latency := "\",\"latency_ms\":" + (Number(s.latency) + bytes);
    NoZeroConcat(s.name, latency);
    NoZeroConcat("{\"name\":\"", s.name + latency);
  }

  lemma {:induction false} DigitsHaveNoZero(n: nat)
    ensures '\0' !in Digits(n)
  {
    if n >= 10 {
      DigitsHaveNoZero(n / 10);
    }
  }
}
