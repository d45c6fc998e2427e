/**
  * The reader of server-sent events: text arrives in arbitrary chunks, complete lines are taken off a
  * buffer, and event and data lines are turned into events. Decoding of bytes comes before, picking the
  * fields out of the parsed JSON after.
  */
module EventStream {
  import opened Prelude

  /** What a data line yields: the current event type and the JSON text. */
  datatype Event = Event(kind: string, data: string)

  datatype State = State(buffer: string, event: string)

  /** Whether JSON.parse gives a value whose fields can be read. */
  type Json = string -> bool

  const EVENT := "event:"
  const DATA := "data:"

  // ---------------------------------------------------------------------------------------
  // Strings

  /** `split('\n')` */
  function Split(s: string): (lines: seq<string>)
    ensures |lines| >= 1
  {
    if s == "" then [""]
    else
      var rest := Split(s[1..]);
      if s[0] == '\n' then [""] + rest else [[s[0]] + rest[0]] + rest[1..]
  }

  predicate IsSpace(c: char) {
    || c == ' ' || c == '\t' || c == '\n' || c == '\r' || c == '\U{000B}' || c == '\U{000C}'
    || c == '\U{00A0}' || c == '\U{1680}' || '\U{2000}' <= c <= '\U{200A}'
    || c == '\U{2028}' || c == '\U{2029}' || c == '\U{202F}' || c == '\U{205F}' || c == '\U{3000}' || c == '\U{FEFF}'
  }

  /** White space and line ends, by their code points, as sections 12.2 and 12.3 of ECMA-262 list them. */
  lemma {:induction false} SpacesAre(c: char)
    ensures var p := c as int;
            IsSpace(c) <==> p in {0x9, 0xB, 0xC, 0x20, 0xA0, 0xFEFF, 0x1680, 0x202F, 0x205F, 0x3000}
                            || 0x2000 <= p <= 0x200A || p in {0xA, 0xD, 0x2028, 0x2029}
  {
  }

  function TrimStart(s: string): (r: string)
    ensures |r| <= |s|
  {
    if s != "" && IsSpace(s[0]) then TrimStart(s[1..]) else s
  }

  function TrimEnd(s: string): (r: string)
    ensures |r| <= |s|
  {
    if s != "" && IsSpace(Last(s)) then TrimEnd(Front(s)) else s
  }

  function Trim(s: string): string { TrimEnd(TrimStart(s)) }

  predicate StartsWith(s: string, prefix: string) { prefix <= s }

  // ---------------------------------------------------------------------------------------
  // The reader

  function Line(event: string, line: string, json: Json): (string, seq<Event>) {
    var trimmed := Trim(line);
    if StartsWith(trimmed, EVENT) then (Trim(trimmed[|EVENT|..]), [])
    else if StartsWith(trimmed, DATA) then
      var data := Trim(trimmed[|DATA|..]);
      (event, if data != "" && json(data) then [Event(if event != "" then event else "delta", data)] else [])
    else (event, [])
  }

  function Lines(event: string, lines: seq<string>, json: Json): (string, seq<Event>) {
    if lines == [] then (event, [])
    else
      var (event1, before) := Lines(event, Front(lines), json);
      var (event2, last) := Line(event1, Last(lines), json);
      (event2, before + last)
  }

  /** One chunk of text. */
  function Feed(s: State, chunk: string, json: Json): (State, seq<Event>) {
    var lines := Split(s.buffer + chunk);
    var (event, events) := Lines(s.event, Front(lines), json);
    (State(Last(lines), event), events)
  }

  function FeedAll(s: State, chunks: seq<string>, json: Json): (State, seq<Event>) {
    if chunks == [] then (s, [])
    else
      var (s1, before) := FeedAll(s, Front(chunks), json);
      var (s2, last) := Feed(s1, Last(chunks), json);
      (s2, before + last)
  }

  const START := State("", "delta")

  /** The read loops of `chatStream` and `runWorkflowStream`, over the chunks until the stream is done. */
  method Read(chunks: seq<string>, json: Json) returns (buffer: string, currentEvent: string, events: seq<Event>)
    ensures (State(buffer, currentEvent), events) == FeedAll(START, chunks, json)
  {
    buffer, currentEvent, events := "", "delta", [];
    for i := 0 to |chunks|
      invariant (State(buffer, currentEvent), events) == FeedAll(START, chunks[..i], json)
    {
      assert Front(chunks[..i + 1]) == chunks[..i];
      ghost var event0, before := currentEvent, events;
      buffer := buffer + chunks[i];
      var lines := Split(buffer);
      buffer, lines := Last(lines), Front(lines);
      for j := 0 to |lines|
        invariant currentEvent == Lines(event0, lines[..j], json).0
        invariant events == before + Lines(event0, lines[..j], json).1
      {
        assert Front(lines[..j + 1]) == lines[..j];
        Assoc(before, Lines(event0, lines[..j], json).1, Line(currentEvent, lines[j], json).1);
        var trimmed := Trim(lines[j]);
        if StartsWith(trimmed, EVENT) {
          currentEvent := Trim(trimmed[|EVENT|..]);
        } else if StartsWith(trimmed, DATA) {
          var data := Trim(trimmed[|DATA|..]);
          if data != "" && json(data) {
            events := events + [Event(if currentEvent != "" then currentEvent else "delta", data)];
          }
        }
      }
      assert lines[..|lines|] == lines;
    }
    assert chunks[..|chunks|] == chunks;
  }

  // ---------------------------------------------------------------------------------------
  // Chunking does not matter

  lemma {:induction false} Assoc<T>(a: seq<T>, b: seq<T>, c: seq<T>)
    ensures a + (b + c) == (a + b) + c
  {
  }

  lemma {:induction false} SplitCons(c: char, s: string)
    ensures Split([c] + s) == if c == '\n' then [""] + Split(s) else [[c] + Split(s)[0]] + Split(s)[1..]
  {
    assert ([c] + s)[0] == c && ([c] + s)[1..] == s;
  }

  lemma {:induction false} SplitConcat(a: string, b: string)
    ensures Split(a + b) == Front(Split(a)) + Split(Last(Split(a)) + b)
  {
    if a == "" {
      assert a + b == b && Last(Split(a)) + b == b;
    } else {
      SplitConcat(a[1..], b);
      SplitConcatCons(a[0], a[1..], b);
      assert [a[0]] + a[1..] == a;
    }
  }

  lemma {:induction false} SplitConcatCons(c: char, a: string, b: string)
    requires Split(a + b) == Front(Split(a)) + Split(Last(Split(a)) + b)
    ensures Split([c] + a + b) == Front(Split([c] + a)) + Split(Last(Split([c] + a)) + b)
  {
    var r := Split(a);
    var m := Split(Last(r) + b);
    SplitCons(c, a);
    assert [c] + a + b == [c] + (a + b);
    SplitCons(c, a + b);
    if c == '\n' {
      assert Front([""] + r) == [""] + Front(r);
    } else if |r| > 1 {
      LongerHead([c] + r[0], r, m);
    } else {
      assert [c] + r[0] + b == [c] + (r[0] + b);
      SplitCons(c, r[0] + b);
      SingleHead([c] + r[0], r, m);
    }
  }

  lemma {:induction false} LongerHead(head: string, r: seq<string>, m: seq<string>)
    requires |r| > 1
    ensures Front([head] + r[1..]) + m == [head] + (Front(r) + m)[1..] && Last([head] + r[1..]) == Last(r)
  {
  }

  lemma {:induction false} SingleHead(head: string, r: seq<string>, m: seq<string>)
    requires |r| == 1
    ensures Front(r) + m == m && Front([head] + r[1..]) == [] && Last([head] + r[1..]) == head
  {
  }

  lemma {:induction false} LinesConcat(event: string, a: seq<string>, b: seq<string>, json: Json)
    ensures var (event1, first) := Lines(event, a, json);
            Lines(event, a + b, json) == (Lines(event1, b, json).0, first + Lines(event1, b, json).1)
  {
    var (event1, first) := Lines(event, a, json);
    if b == [] {
      assert a + b == a && first + [] == first;
    } else {
      assert Front(a + b) == a + Front(b) && Last(a + b) == Last(b);
      LinesConcat(event, a, Front(b), json);
      var (event2, second) := Lines(event1, Front(b), json);
      Assoc(first, second, Line(event2, Last(b), json).1);
    }
  }

  function Concat(chunks: seq<string>): string {
    if chunks == [] then "" else Concat(Front(chunks)) + Last(chunks)
  }

  /** Feeding two pieces is feeding them in one. */
  lemma {:induction false} FeedTwice(s: State, a: string, b: string, json: Json)
    ensures var (s1, first) := Feed(s, a, json);
            Feed(s, a + b, json) == (Feed(s1, b, json).0, first + Feed(s1, b, json).1)
  {
    var lines, more := Split(s.buffer + a), Split(Last(Split(s.buffer + a)) + b);
    SplitConcat(s.buffer + a, b);
    assert (s.buffer + a) + b == s.buffer + (a + b);
    assert Front(Front(lines) + more) == Front(lines) + Front(more);
    LinesConcat(s.event, Front(lines), Front(more), json);
  }

  lemma {:induction false} FeedNothing(s: State, json: Json)
    requires '\n' !in s.buffer
    ensures Feed(s, "", json) == (s, [])
  {
    assert s.buffer + "" == s.buffer;
    SplitLine(s.buffer);
  }

  lemma {:induction false} SplitLine(s: string)
    requires '\n' !in s
    ensures Split(s) == [s]
  {
    if s != "" {
      SplitLine(s[1..]);
      assert [s[0]] + s[1..] == s;
    }
  }

  /** However the text is cut into chunks, the events and the text left over are the same. */
  lemma {:induction false} ChunkingDoesNotMatter(s: State, chunks: seq<string>, json: Json)
    requires '\n' !in s.buffer
    ensures FeedAll(s, chunks, json) == Feed(s, Concat(chunks), json)
  {
    if chunks == [] {
      FeedNothing(s, json);
    } else {
      ChunkingDoesNotMatter(s, Front(chunks), json);
      FeedTwice(s, Concat(Front(chunks)), Last(chunks), json);
    }
  }

  /** Hence two streams of the same text are read alike. */
  lemma {:induction false} SameTextSameEvents(a: seq<string>, b: seq<string>, json: Json)
    requires Concat(a) == Concat(b)
    ensures FeedAll(START, a, json) == FeedAll(START, b, json)
  {
    ChunkingDoesNotMatter(START, a, json);
    ChunkingDoesNotMatter(START, b, json);
  }

  // ---------------------------------------------------------------------------------------
  // Frames

  /**
    * An event with one line of data, in the event stream format of the HTML standard, section 9.2.5. Its type
    * may be missing or empty, and its line may come behind that of the data.
    */
  datatype Frame = Frame(kind: Option<string>, data: string, late: bool)

  /** The optional space after a colon and the two line ends the reader accepts. */
  datatype Style = Style(space: bool, crlf: bool)

  function Cr(style: Style): string { if style.crlf then "\r" else "" }

  function Field(name: string, value: string, style: Style): string {
    name + (if style.space then " " else "") + value + Cr(style)
  }

  /** How each line of a frame is written. */
  datatype Look = Look(event: Style, data: Style, blank: Style)

  function FrameLines(f: Frame, look: Look): (lines: seq<string>) {
    var data, blank := Field(DATA, f.data, look.data), Cr(look.blank);
    match f.kind
    case None => [data, blank]
    case Some(kind) =>
      var event := Field(EVENT, kind, look.event);
      if f.late then [data, event, blank] else [event, data, blank]
  }

  function Ended(lines: seq<string>): string {
    if lines == [] then "" else Ended(Front(lines)) + (Last(lines) + "\n")
  }

  /** Every frame, and every line of it, as it likes. */
  function RenderAll(frames: seq<Frame>, looks: seq<Look>): (texts: seq<string>)
    requires |looks| == |frames|
    ensures |texts| == |frames|
  {
    if frames == [] then []
    else RenderAll(Front(frames), Front(looks)) + [Ended(FrameLines(Last(frames), Last(looks)))]
  }

  /** A value on one line, without blanks around it. */
  predicate IsValue(s: string) { s != "" && '\n' !in s && Trim(s) == s }

  predicate IsFrame(f: Frame, json: Json) {
    (f.kind.Some? ==> f.kind.value == "" || IsValue(f.kind.value)) && IsValue(f.data) && json(f.data)
  }

  /** The type an event line leaves in force for what follows. */
  function TypeThen(event: string, f: Frame): string { if f.kind.Some? then f.kind.value else event }

  function Shown(event: string): string { if event != "" then event else "delta" }

  /** The type a frame's event gets: its own only if it came before the data. */
  function Taken(event: string, f: Frame): string { Shown(if f.late then event else TypeThen(event, f)) }

  /** The last type given, at first the default. */
  function TypeAfter(frames: seq<Frame>): string {
    if frames == [] then "delta" else TypeThen(TypeAfter(Front(frames)), Last(frames))
  }

  function Events(frames: seq<Frame>): (events: seq<Event>)
    ensures |events| == |frames|
  {
    if frames == [] then []
    else Events(Front(frames)) + [Event(Taken(TypeAfter(Front(frames)), Last(frames)), Last(frames).data)]
  }

  // ---------------------------------------------------------------------------------------
  // Lines of a frame

  predicate OnOneLine(lines: seq<string>) { forall i :: 0 <= i < |lines| ==> '\n' !in lines[i] }

  lemma {:induction false} SplitEnded(lines: seq<string>)
    requires OnOneLine(lines)
    ensures Split(Ended(lines)) == lines + [""]
  {
    if lines != [] {
      SplitEnded(Front(lines));
      SplitConcat(Ended(Front(lines)), Last(lines) + "\n");
      assert Front(Front(lines) + [""]) == Front(lines) && "" + (Last(lines) + "\n") == Last(lines) + "\n";
      assert '\n' !in Last(lines);
      NewlineEnds(Last(lines));
      assert Front(lines) + [Last(lines), ""] == lines + [""];
    }
  }

  lemma {:induction false} NewlineEnds(line: string)
    requires '\n' !in line
    ensures Split(line + "\n") == [line, ""]
  {
    if line == "" {
      assert line + "\n" == ['\n'] + "";
      SplitCons('\n', "");
    } else {
      NewlineEnds(line[1..]);
      assert line + "\n" == [line[0]] + (line[1..] + "\n");
      SplitCons(line[0], line[1..] + "\n");
      assert [line[0]] + line[1..] == line;
    }
  }

  lemma {:induction false} ValueEnds(s: string)
    requires IsValue(s)
    ensures !IsSpace(s[0]) && !IsSpace(Last(s))
  {
    assert IsSpace(s[0]) ==> |TrimStart(s)| < |s|;
  }

  /** Trimming a field takes only its line end off; trimming what follows the name leaves the value. */
  lemma {:induction false} TrimField(name: string, value: string, style: Style)
    requires name != "" && !IsSpace(name[0]) && IsValue(value)
    ensures var bare := Field(name, value, Style(style.space, false));
            && Trim(Field(name, value, style)) == bare
            && name <= bare && Trim(bare[|name|..]) == value
  {
    ValueEnds(value);
    var bare := Field(name, value, Style(style.space, false));
    assert Last(bare) == Last(value) && bare[0] == name[0];
    TrimBetween(bare, Cr(style));
    assert Field(name, value, style) == bare + Cr(style);
    if style.space {
      assert bare[|name|..] == " " + value && (" " + value)[1..] == value;
    } else {
      assert bare[|name|..] == value;
    }
  }

  lemma {:induction false} TrimBetween(s: string, end: string)
    requires s != "" && !IsSpace(s[0]) && !IsSpace(Last(s)) && (end == "" || end == "\r" || end == " ")
    ensures TrimEnd(s + end) == s && Trim(s + end) == s
  {
    assert (s + end)[0] == s[0];
    assert TrimEnd(s) == s;
    if end == "" {
      assert s + end == s;
    } else {
      assert Front(s + end) == s && Last(s + end) == end[0];
    }
  }

  /** A line without a value. */
  lemma {:induction false} TrimEmpty(name: string, style: Style)
    requires name != "" && !IsSpace(name[0]) && !IsSpace(Last(name))
    ensures Trim(Field(name, "", style)) == name
  {
    var spaced := name + (if style.space then " " else "");
    assert Field(name, "", style) == spaced + Cr(style);
    TrimBetween(name, if style.space then " " else "");
    if style.crlf {
      assert Front(spaced + "\r") == spaced && Last(spaced + "\r") == '\r';
      assert (spaced + "\r")[0] == name[0];
    } else {
      assert spaced + Cr(style) == spaced;
    }
  }

  lemma {:induction false} EventLine(event: string, kind: string, style: Style, json: Json)
    requires kind == "" || IsValue(kind)
    ensures Line(event, Field(EVENT, kind, style), json) == (kind, [])
  {
    if kind == "" {
      TrimEmpty(EVENT, style);
      assert EVENT[|EVENT|..] == "";
    } else {
      TrimField(EVENT, kind, style);
    }
  }

  lemma {:induction false} DataLine(event: string, data: string, style: Style, json: Json)
    requires IsValue(data) && json(data)
    ensures Line(event, Field(DATA, data, style), json) == (event, [Event(Shown(event), data)])
  {
    TrimField(DATA, data, style);
    var bare := Field(DATA, data, Style(style.space, false));
    assert bare[0] == 'd' && EVENT[0] == 'e';
  }

  /** A data line that is empty or no JSON yields nothing, and leaves the type as it is. */
  lemma {:induction false} BadDataIsSkipped(event: string, data: string, style: Style, json: Json)
    requires data == "" || (IsValue(data) && !json(data))
    ensures Line(event, Field(DATA, data, style), json) == (event, [])
  {
    if data == "" {
      TrimEmpty(DATA, style);
      assert DATA[|DATA|..] == "";
    } else {
      TrimField(DATA, data, style);
    }
    assert DATA[0] == 'd' && EVENT[0] == 'e';
  }

  lemma {:induction false} BlankLine(event: string, style: Style, json: Json)
    ensures Line(event, Cr(style), json) == (event, [])
  {
    if style.crlf {
      assert "\r"[1..] == "";
    }
    assert Trim(Cr(style)) == "";
  }

  lemma {:induction false} OneLine(event: string, line: string, json: Json)
    ensures Lines(event, [line], json) == Line(event, line, json)
  {
    assert Front([line]) == [] && [] + Line(event, line, json).1 == Line(event, line, json).1;
  }

  lemma {:induction false} TwoLines(event: string, first: string, second: string, json: Json)
    ensures var (event1, e1) := Line(event, first, json);
            var (event2, e2) := Line(event1, second, json);
            Lines(event, [first, second], json) == (event2, e1 + e2)
  {
    LinesConcat(event, [first], [second], json);
    assert [first] + [second] == [first, second];
    OneLine(event, first, json);
    OneLine(Line(event, first, json).0, second, json);
  }

  lemma {:induction false} ThreeLines(event: string, first: string, second: string, third: string, json: Json)
    ensures var (event1, e1) := Line(event, first, json);
            var (event2, e2) := Line(event1, second, json);
            var (event3, e3) := Line(event2, third, json);
            Lines(event, [first, second, third], json) == (event3, e1 + e2 + e3)
  {
    LinesConcat(event, [first, second], [third], json);
    TwoLines(event, first, second, json);
    assert [first, second] + [third] == [first, second, third];
    OneLine(Line(Line(event, first, json).0, second, json).0, third, json);
  }

  lemma {:induction false} ReadFrameLines(event: string, f: Frame, look: Look, json: Json)
    requires IsFrame(f, json)
    ensures Lines(event, FrameLines(f, look), json) == (TypeThen(event, f), [Event(Taken(event, f), f.data)])
  {
    var data, blank := Field(DATA, f.data, look.data), Cr(look.blank);
    var e := [Event(Taken(event, f), f.data)];
    assert e + [] == e && [] + e == e;
    BlankLine(TypeThen(event, f), look.blank, json);
    match f.kind
    case None =>
      DataLine(event, f.data, look.data, json);
      TwoLines(event, data, blank, json);
    case Some(kind) =>
      var line := Field(EVENT, kind, look.event);
      if f.late {
        DataLine(event, f.data, look.data, json);
        EventLine(event, kind, look.event, json);
        ThreeLines(event, data, line, blank, json);
      } else {
        EventLine(event, kind, look.event, json);
        DataLine(kind, f.data, look.data, json);
        ThreeLines(event, line, data, blank, json);
      }
  }

  lemma {:induction false} FieldIsOnOneLine(name: string, value: string, style: Style)
    requires '\n' !in name && '\n' !in value
    ensures '\n' !in Field(name, value, style)
  {
  }

  /** One frame yields one event and leaves nothing behind but a type. */
  lemma {:induction false} FeedFrame(event: string, f: Frame, look: Look, json: Json)
    requires IsFrame(f, json)
    ensures Feed(State("", event), Ended(FrameLines(f, look)), json)
            == (State("", TypeThen(event, f)), [Event(Taken(event, f), f.data)])
  {
    var lines := FrameLines(f, look);
    FieldIsOnOneLine(DATA, f.data, look.data);
    if f.kind.Some? {
      FieldIsOnOneLine(EVENT, f.kind.value, look.event);
    }
    assert OnOneLine(lines);
    SplitEnded(lines);
    assert "" + Ended(lines) == Ended(lines) && Front(lines + [""]) == lines && Last(lines + [""]) == "";
    ReadFrameLines(event, f, look, json);
  }

  ghost predicate AreFrames(frames: seq<Frame>, json: Json) {
    forall i :: 0 <= i < |frames| ==> IsFrame(frames[i], json)
  }

  lemma {:induction false} FeedFrames(frames: seq<Frame>, looks: seq<Look>, json: Json)
    requires |looks| == |frames| && AreFrames(frames, json)
    ensures FeedAll(START, RenderAll(frames, looks), json) == (State("", TypeAfter(frames)), Events(frames))
  {
    if frames != [] {
      FeedFrames(Front(frames), Front(looks), json);
      assert Front(RenderAll(frames, looks)) == RenderAll(Front(frames), Front(looks));
      FeedFrame(TypeAfter(Front(frames)), Last(frames), Last(looks), json);
    }
  }

  /**
    * Text made of frames yields one event a frame in order, wherever it is cut, and leaves nothing over; an
    * event has its frame's data and, unless that came before the data, the last type given.
    */
  lemma {:induction false} FramesAreRead(frames: seq<Frame>, looks: seq<Look>, chunks: seq<string>, json: Json)
    requires |looks| == |frames| && AreFrames(frames, json)
    requires Concat(chunks) == Concat(RenderAll(frames, looks))
    ensures FeedAll(START, chunks, json) == (State("", TypeAfter(frames)), Events(frames))
  {
    FeedFrames(frames, looks, json);
    SameTextSameEvents(chunks, RenderAll(frames, looks), json);
  }

  lemma {:induction false} EventAt(frames: seq<Frame>, i: nat)
    requires i < |frames|
    ensures Events(frames)[i] == Event(Taken(TypeAfter(frames[..i]), frames[i]), frames[i].data)
  {
    if i < |frames| - 1 {
      EventAt(Front(frames), i);
      assert Front(frames)[..i] == frames[..i];
    } else {
      assert Front(frames) == frames[..i];
    }
  }

  /** Frame `j` is the last before `i` with an event line. */
  predicate GivesType(frames: seq<Frame>, j: nat, i: nat)
    requires j < i <= |frames|
  {
    frames[j].kind.Some? && forall m :: j < m < i ==> frames[m].kind.None?
  }

  /** The type in force is the last one given, however long ago, and the default before any. */
  lemma {:induction false} TypePersists(frames: seq<Frame>, i: nat)
    requires i <= |frames|
    ensures (forall j :: 0 <= j < i ==> frames[j].kind.None?) ==> TypeAfter(frames[..i]) == "delta"
    ensures forall j :: 0 <= j < i && GivesType(frames, j, i) ==> TypeAfter(frames[..i]) == frames[j].kind.value
  {
    if i > 0 {
      TypePersists(frames, i - 1);
      assert Front(frames[..i]) == frames[..i - 1] && Last(frames[..i]) == frames[i - 1];
      forall j | 0 <= j < i && GivesType(frames, j, i)
        ensures TypeAfter(frames[..i]) == frames[j].kind.value
      {
        assert j < i - 1 ==> frames[i - 1].kind.None? && GivesType(frames, j, i - 1);
      }
    }
  }

  /** Without an event line: the default exactly if the last type given, if any, was the default. */
  lemma {:induction false} UntypedIsDefaultExactly(frames: seq<Frame>, i: nat)
    requires i < |frames| && frames[i].kind.None?
    ensures Events(frames)[i].kind == "delta"
            <==> forall j :: 0 <= j < i && GivesType(frames, j, i) ==> Shown(frames[j].kind.value) == "delta"
  {
    EventAt(frames, i);
    TypePersists(frames, i);
    if exists j :: 0 <= j < i && frames[j].kind.Some? {
      var j := LastGiven(frames, i);
      assert GivesType(frames, j, i);
    }
  }

  lemma {:induction false} LastGiven(frames: seq<Frame>, i: nat) returns (j: nat)
    requires i <= |frames| && exists j :: 0 <= j < i && frames[j].kind.Some?
    ensures j < i && GivesType(frames, j, i)
  {
    j := i - 1;
    while frames[j].kind.None?
      invariant j < i && forall m :: j < m < i ==> frames[m].kind.None?
      decreases j
    {
      j := j - 1;
    }
  }

  /** The type the standard gives to a frame, with this program's default. */
  function Meant(f: Frame): string { Shown(if f.kind.Some? then f.kind.value else "") }

  function MeantEvents(frames: seq<Frame>): (events: seq<Event>)
    ensures |events| == |frames|
    ensures forall i :: 0 <= i < |frames| ==> events[i] == Event(Meant(frames[i]), frames[i].data)
  {
    seq(|frames|, i requires 0 <= i < |frames| => Event(Meant(frames[i]), frames[i].data))
  }

  /** A frame whose event line is missing or late. */
  predicate TakesLast(f: Frame) { f.kind.None? || f.late }

  /** All events have the types the standard gives them exactly if the last type given fits such frames. */
  lemma {:induction false} TypesAreMeantExactly(frames: seq<Frame>)
    ensures Events(frames) == MeantEvents(frames)
            <==> forall i :: 0 <= i < |frames| && TakesLast(frames[i]) ==>
                   Shown(TypeAfter(frames[..i])) == Meant(frames[i])
  {
    forall i | 0 <= i < |frames|
      ensures Events(frames)[i] == MeantEvents(frames)[i]
              <==> (TakesLast(frames[i]) ==> Shown(TypeAfter(frames[..i])) == Meant(frames[i]))
    {
      EventAt(frames, i);
    }
    if forall i :: 0 <= i < |frames| && TakesLast(frames[i]) ==> Shown(TypeAfter(frames[..i])) == Meant(frames[i]) {
      assert forall i :: 0 <= i < |frames| ==> Events(frames)[i] == MeantEvents(frames)[i];
    }
  }

  /** What follows the last line end is never looked at: it stays in the buffer when the stream ends. */
  lemma {:induction false} UnterminatedIsIgnored(s: State, text: string, json: Json)
    requires '\n' !in s.buffer && '\n' !in text
    ensures Feed(s, text, json) == (State(s.buffer + text, s.event), [])
  {
    SplitLine(s.buffer + text);
  }
}
