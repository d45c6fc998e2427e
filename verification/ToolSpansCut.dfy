/** When the recorded calls are no JSON: exactly when one of them was cut to fit its entry. */
module ToolSpansCut {
  import opened Prelude
  import opened ToolSpans
  import opened JsonText
  import opened ToolSpansJson

  // ---------------------------------------------------------------------------------------
  // What is written of long entries

  function CutAll(entries: seq<string>): (r: seq<string>)
    ensures |r| == |entries|
    ensures forall i :: 0 <= i < |entries| ==> r[i] == Cut(entries[i], ENTRY - 1)
  {
    if entries == [] then [] else CutAll(Front(entries)) + [Cut(Last(entries), ENTRY - 1)]
  }

  /** Only what fits into an entry reaches the buffer. */
  lemma {:induction false} OnlyCutsCount(entries: seq<string>)
    ensures AddedAll(entries) == AddedAll(CutAll(entries))
  {
    if entries != [] {
      OnlyCutsCount(Front(entries));
      assert Front(CutAll(entries)) == CutAll(Front(entries));
    }
  }

  /** How many of the calls are written. */
  function Written(calls: seq<Span>): (k: nat)
    ensures k <= |calls|
  {
    Recorded(CutAll(Entries(calls)))
  }

  lemma {:induction false} CutsAreShort(entries: seq<string>)
    requires forall i :: 0 <= i < |entries| ==> entries[i] != ""
    ensures forall i :: 0 <= i < |entries| ==> Short(CutAll(entries)[i])
  {
  }

  lemma {:induction false} EntriesAreWords(calls: seq<Span>)
    ensures forall i :: 0 <= i < |calls| ==> Entries(calls)[i] != ""
  {
    forall i | 0 <= i < |calls|
      ensures Entries(calls)[i] != ""
    {
      EntryLength(calls[i]);
    }
  }

  lemma {:induction false} BufferIs(calls: seq<Span>)
    ensures AddedAll(Entries(calls)) == Bracketed(CutAll(Entries(calls))[..Written(calls)])
  {
    EntriesAreWords(calls);
    BufferHolds(Entries(calls));
  }

  lemma {:induction false} BufferHolds(entries: seq<string>)
    requires forall i :: 0 <= i < |entries| ==> entries[i] != ""
    ensures AddedAll(entries) == Bracketed(CutAll(entries)[..Recorded(CutAll(entries))])
  {
    CutsAreShort(entries);
    OnlyCutsCount(entries);
    HoldsPrefix(CutAll(entries));
  }

  lemma {:induction false} EntryLength(s: Span)
    ensures |Entry(s)| == |s.name| + |Number(s.latency)| + |Digits(s.bytes)| + 41
  {
  }

  // ---------------------------------------------------------------------------------------
  // A whole entry is a JSON object

  const ITEMS := [Square]
  const FIELDS := [Square, Curly]

  const HEAD := "{" + (Quoted("name") + ":")
  const LATENCY := "," + (Quoted("latency_ms") + ":")
  const BYTES := "," + (Quoted("bytes") + ":")
  const OK := "," + (Quoted("ok") + ":")

  function Flag(s: Span): string { if s.ok then "1" else "0" }

  function AfterName(s: Span): string {
    LATENCY + (Number(s.latency) + (BYTES + (Digits(s.bytes) + (OK + Flag(s)))))
  }

  lemma {:induction false} EntryIs(s: Span)
    ensures Entry(s) == (HEAD + (Quoted(s.name) + AfterName(s))) + "}"
  {
    assert HEAD + "\"" == "{\"name\":\"" && "\"" + LATENCY == "\",\"latency_ms\":";
    assert BYTES == ",\"bytes\":" && OK == ",\"ok\":";
    Regroup(s.name, LATENCY, Number(s.latency), BYTES, Digits(s.bytes), OK, Flag(s));
  }

  lemma {:induction false} Regroup(name: string, a: string, b: string, c: string, d: string, e: string, f: string)
    ensures (HEAD + (Quoted(name) + (a + (b + (c + (d + (e + f))))))) + "}"
            == (HEAD + "\"") + (name + (("\"" + a) + (b + (c + (d + (e + (f + "}")))))))
  {
    var rest := b + (c + (d + (e + (f + "}"))));
    Flatten("", a, b, c, d, e, f, "}");
    assert "" + (a + rest) == a + rest;
    assert "" + (a + (b + (c + (d + (e + f))))) == a + (b + (c + (d + (e + f))));
    assert (Quoted(name) + (a + (b + (c + (d + (e + f)))))) + "}" == Quoted(name) + (a + rest);
    assert Quoted(name) + (a + rest) == "\"" + (name + (("\"" + a) + rest));
  }

  predicate StartsNumber(s: Scan) { s.mode.Value? || s.mode.Minus? }

  lemma {:induction false} DigitRuns(s: Scan, d: nat)
    requires d < 10 && (StartsNumber(s) || s.mode.Digit?)
    ensures Step(s, DIGITS[d]) == Scan(if d == 0 && !s.mode.Digit? then Zero else Mode.Digit, s.open)
  {
    DigitValue(d);
  }

  lemma {:induction false} DigitsRun(s: Scan, n: nat)
    requires StartsNumber(s)
    ensures Run(s, Digits(n)) == Scan(if n == 0 then Zero else Mode.Digit, s.open)
  {
    if n < 10 {
      assert Digits(n) == [DIGITS[n]];
      RunOne(s, DIGITS[n]);
      DigitRuns(s, n);
    } else {
      DigitsRun(s, n / 10);
      assert Digits(n) == Digits(n / 10) + [DIGITS[n % 10]];
      RunConcat(s, Digits(n / 10), [DIGITS[n % 10]]);
      RunOne(Scan(Mode.Digit, s.open), DIGITS[n % 10]);
      DigitRuns(Scan(Mode.Digit, s.open), n % 10);
    }
  }

  /** A value, or a number with nothing behind it yet, is complete. */
  predicate Complete(s: Scan, open: seq<Bracket>) {
    s.open == open && (s.mode.After? || s.mode.Zero? || s.mode.Digit?)
  }

  lemma {:induction false} NumberRuns(open: seq<Bracket>, n: int)
    ensures Complete(Run(Scan(Mode.Value, open), Number(n)), open)
  {
    if n < 0 {
      NegativeRuns(open, -n, Number(n));
    } else {
      PositiveRuns(open, n, Number(n));
    }
  }

  lemma {:induction false} PositiveRuns(open: seq<Bracket>, n: nat, text: string)
    requires text == Digits(n)
    ensures Complete(Run(Scan(Mode.Value, open), text), open)
  {
    DigitsRun(Scan(Mode.Value, open), n);
  }

  lemma {:induction false} NegativeRuns(open: seq<Bracket>, n: nat, text: string)
    requires text == "-" + Digits(n)
    ensures Complete(Run(Scan(Mode.Value, open), text), open)
  {
    assert text == ['-'] + Digits(n);
    RunCons(Scan(Mode.Value, open), '-', Digits(n));
    DigitsRun(Scan(Minus, open), n);
  }

  lemma {:induction false} CommaStep(s: Scan)
    requires Complete(s, FIELDS)
    ensures Step(s, ',') == Scan(Key, FIELDS)
  {
  }

  lemma {:induction false} NextKeyRuns(s: Scan, key: string)
    requires Complete(s, FIELDS) && IsPlain(key)
    ensures Run(s, "," + (Quoted(key) + ":")) == Scan(Mode.Value, FIELDS)
  {
    assert "," + (Quoted(key) + ":") == [','] + (Quoted(key) + ":");
    RunCons(s, ',', Quoted(key) + ":");
    CommaStep(s);
    KeyRuns(Scan(Key, FIELDS), key);
  }

  /** A further member of an object, with a number. */
  lemma {:induction false} MemberRuns(s: Scan, key: string, n: int, rest: string) returns (t: Scan)
    requires Complete(s, FIELDS) && IsPlain(key)
    ensures Complete(t, FIELDS) && Run(s, ("," + (Quoted(key) + ":")) + (Number(n) + rest)) == Run(t, rest)
  {
    NextKeyRuns(s, key);
    NumberRuns(FIELDS, n);
    t := Run(Scan(Mode.Value, FIELDS), Number(n));
    RunThree(s, "," + (Quoted(key) + ":"), Number(n), rest);
  }

  lemma {:induction false} RunThree(s: Scan, a: string, b: string, c: string)
    ensures Run(s, a + (b + c)) == Run(Run(Run(s, a), b), c)
  {
    RunConcat(s, a, b + c);
    RunConcat(Run(s, a), b, c);
  }

  lemma {:induction false} AfterNameRuns(s: Span)
    ensures Complete(Run(Scan(After, FIELDS), AfterName(s)), FIELDS)
  {
    var ok := if s.ok then 1 else 0;
    assert Number(ok) + "" == Flag(s) && Number(s.bytes) == Digits(s.bytes);
    var t := MemberRuns(Scan(After, FIELDS), "latency_ms", s.latency, BYTES + (Digits(s.bytes) + (OK + Flag(s))));
    var u := MemberRuns(t, "bytes", s.bytes, OK + Flag(s));
    var v := MemberRuns(u, "ok", ok, "");
  }

  /** Where an element of the array may start. */
  predicate StartsItem(s: Scan) { s.open == ITEMS && (s.mode.Value? || s.mode.FirstItem?) }

  lemma {:induction false} HeadRuns(s: Scan)
    requires StartsItem(s)
    ensures Run(s, HEAD) == Scan(Mode.Value, FIELDS)
  {
    assert HEAD == ['{'] + (Quoted("name") + ":") && [Square] + [Curly] == FIELDS;
    RunCons(s, '{', Quoted("name") + ":");
    KeyRuns(Scan(FirstKey, FIELDS), "name");
  }

  /** The object without its closing brace. */
  function Members(s: Span): string { HEAD + (Quoted(s.name) + AfterName(s)) }

  lemma {:induction false} MembersRun(s: Scan, span: Span)
    requires StartsItem(s) && IsPlain(span.name)
    ensures Complete(Run(s, Members(span)), FIELDS)
  {
    HeadRuns(s);
    RunThree(s, HEAD, Quoted(span.name), AfterName(span));
    QuotedRuns(Scan(Mode.Value, FIELDS), false, span.name);
    AfterNameRuns(span);
  }

  lemma {:induction false} BraceStep(s: Scan)
    requires Complete(s, FIELDS)
    ensures Step(s, '}') == Scan(After, ITEMS)
  {
  }

  /** An entry that is not cut is one element. */
  lemma {:induction false} EntryRuns(s: Scan, span: Span, entry: string)
    requires StartsItem(s) && IsPlain(span.name) && entry == Entry(span)
    ensures Run(s, entry) == Scan(After, ITEMS)
  {
    EntryIs(span);
    MembersRun(s, span);
    RunConcat(s, Members(span), "}");
    RunOne(Run(s, Members(span)), '}');
    BraceStep(Run(s, Members(span)));
  }

  // ---------------------------------------------------------------------------------------
  // A cut entry leaves its brace open

  predicate Unbracketed(text: string) { forall i :: 0 <= i < |text| ==> !IsBracket(text[i]) }

  lemma {:induction false} UnbracketedSum(a: string, b: string)
    requires Unbracketed(a) && Unbracketed(b)
    ensures Unbracketed(a + b)
  {
  }

  lemma {:induction false} DigitsAreUnbracketed(d: string)
    requires AllDigits(d)
    ensures Unbracketed(d) && Unbracketed("-" + d)
  {
    assert forall i :: 0 <= i < |d| ==> IsDigit(d[i]);
  }

  lemma {:induction false} NumberIsUnbracketed(n: int)
    ensures Unbracketed(Number(n))
  {
    ValueOfDigits(if n < 0 then -n else n);
    DigitsAreUnbracketed(Digits(if n < 0 then -n else n));
  }

  lemma {:induction false} AfterNameIsUnbracketed(s: Span)
    ensures Unbracketed(AfterName(s))
  {
    assert Number(s.bytes) == Digits(s.bytes);
    NumberIsUnbracketed(s.bytes);
    NumberIsUnbracketed(s.latency);
    UnbracketedSum(OK, Flag(s));
    UnbracketedSum(Digits(s.bytes), OK + Flag(s));
    UnbracketedSum(BYTES, Digits(s.bytes) + (OK + Flag(s)));
    UnbracketedSum(Number(s.latency), BYTES + (Digits(s.bytes) + (OK + Flag(s))));
    UnbracketedSum(LATENCY, Number(s.latency) + (BYTES + (Digits(s.bytes) + (OK + Flag(s)))));
  }

  /** In the middle of the name or behind it. */
  lemma {:induction false} MembersStayOpen(span: Span, n: nat)
    requires IsPlain(span.name) && 0 < n <= |Quoted(span.name) + AfterName(span)|
    ensures Run(Scan(Mode.Value, FIELDS), (Quoted(span.name) + AfterName(span))[..n]).open == FIELDS
  {
    var s, text, name := Scan(Mode.Value, FIELDS), (Quoted(span.name) + AfterName(span))[..n], Quoted(span.name);
    if n < |name| {
      assert text == ['"'] + span.name[..n - 1];
      RunCons(s, '"', span.name[..n - 1]);
      PlainRuns(false, FIELDS, span.name[..n - 1]);
    } else {
      var rest := AfterName(span)[..n - |name|];
      assert text == name + rest;
      RunConcat(s, name, rest);
      QuotedRuns(s, false, span.name);
      AfterNameIsUnbracketed(span);
      OpenStays(Scan(After, FIELDS), rest);
    }
  }

  lemma {:induction false} CutStaysOpen(s: Scan, span: Span)
    requires StartsItem(s) && IsPlain(span.name) && |Entry(span)| >= ENTRY
    ensures Run(s, Cut(Entry(span), ENTRY - 1)).open == FIELDS
  {
    var members, n := Quoted(span.name) + AfterName(span), ENTRY - 1 - |HEAD|;
    EntryIs(span);
    assert Cut(Entry(span), ENTRY - 1) == HEAD + members[..n];
    HeadRuns(s);
    RunConcat(s, HEAD, members[..n]);
    MembersStayOpen(span, n);
  }

  /** An open object cannot go on with a comma, a brace, and the first quote and letter of an entry. */
  lemma {:induction false} NextIsBad(s: Scan)
    requires s.open == FIELDS
    ensures Step(Step(Step(Step(s, ','), '{'), '"'), 'n').mode.Bad?
  {
    CommaInObject(s);
    BraceInObject(Step(s, ','));
    QuoteInObject(Step(Step(s, ','), '{'));
  }

  lemma {:induction false} CommaInObject(s: Scan)
    requires s.open == FIELDS
    ensures var t := Step(s, ','); t.open == FIELDS && (t.mode.Bad? || t.mode.Key? || t.mode.Text?)
  {
  }

  lemma {:induction false} BraceInObject(s: Scan)
    requires s.open == FIELDS && (s.mode.Bad? || s.mode.Key? || s.mode.Text?)
    ensures var t := Step(s, '{'); t.open == FIELDS && (t.mode.Bad? || t.mode.Text?)
  {
  }

  lemma {:induction false} QuoteInObject(s: Scan)
    requires s.open == FIELDS && (s.mode.Bad? || s.mode.Text?)
    ensures Step(Step(s, '"'), 'n').mode.Bad?
  {
    var t := Step(s, '"');
    assert t.open == FIELDS && (t.mode.Bad? || t.mode.Colon? || t.mode.After?);
  }

  ghost predicate StartsLikeOne(entry: string) {
    |entry| > 2 && entry[0] == '{' && entry[1] == '"' && entry[2] == 'n'
  }

  lemma {:induction false} CutStarts(s: Span)
    ensures StartsLikeOne(Cut(Entry(s), ENTRY - 1))
  {
    EntryLength(s);
    var e := Entry(s);
    assert e[0] == '{' && e[1] == '"' && e[2] == 'n';
  }

  lemma {:induction false} NextEntryIsBad(s: Scan, entry: string)
    requires s.open == FIELDS && StartsLikeOne(entry)
    ensures Run(s, "," + entry).mode.Bad?
  {
    NextIsBad(s);
    var rest := entry[3..];
    assert "," + entry == [','] + (['{'] + (['"'] + (['n'] + rest)));
    RunCons(s, ',', ['{'] + (['"'] + (['n'] + rest)));
    RunCons(Step(s, ','), '{', ['"'] + (['n'] + rest));
    RunCons(Step(Step(s, ','), '{'), '"', ['n'] + rest);
    RunCons(Step(Step(Step(s, ','), '{'), '"'), 'n', rest);
    BadStays(Step(Step(Step(Step(s, ','), '{'), '"'), 'n'), rest);
  }

  // ---------------------------------------------------------------------------------------
  // The whole array

  const FIRST := Scan(FirstItem, ITEMS)

  lemma {:induction false} BracketedRuns(entries: seq<string>)
    ensures Run(START, Bracketed(entries)) == Step(Run(FIRST, Join(entries)), ']')
  {
    assert Bracketed(entries) == ['['] + (Join(entries) + "]");
    RunCons(START, '[', Join(entries) + "]");
    assert [] + [Square] == ITEMS;
    RunConcat(FIRST, Join(entries), "]");
    RunOne(Run(FIRST, Join(entries)), ']');
  }

  /** What has been read in front of entry `k`. */
  function Before(cuts: seq<string>, k: nat): Scan
    requires k <= |cuts|
  {
    Run(FIRST, Join(cuts[..k]))
  }

  lemma {:induction false} BeforeNext(cuts: seq<string>, k: nat)
    requires k < |cuts|
    ensures Before(cuts, k + 1)
            == if k == 0 then Run(FIRST, cuts[0]) else Run(Step(Before(cuts, k), ','), cuts[k])
  {
    assert cuts[..k + 1] == cuts[..k] + [cuts[k]];
    JoinSnoc(cuts[..k], cuts[k]);
    if k == 0 {
      assert Join(cuts[..1]) == cuts[0];
    } else {
      RunConcat(FIRST, Join(cuts[..k]), "," + cuts[k]);
      RunCons(Before(cuts, k), ',', cuts[k]);
    }
  }

  lemma {:induction false} AfterItem(s: Scan)
    requires s == Scan(After, ITEMS)
    ensures StartsItem(Step(s, ',')) && Ends(Step(s, ']'))
  {
  }

  /** The calls' entries, each as far as it fits. */
  ghost predicate AreCuts(cuts: seq<string>, entries: seq<string>, calls: seq<Span>) {
    && |cuts| == |entries| == |calls|
    && forall i :: 0 <= i < |calls| ==>
         cuts[i] == Cut(entries[i], ENTRY - 1) && entries[i] == Entry(calls[i]) && IsPlain(calls[i].name)
  }

  /** The first `k` entries are not cut. */
  ghost predicate WholeUpTo(entries: seq<string>, k: nat)
    requires k <= |entries|
  {
    forall i :: 0 <= i < k ==> |entries[i]| < ENTRY
  }

  /** A text that is one element of the array. */
  predicate IsItem(entry: string) {
    Run(FIRST, entry) == Scan(After, ITEMS) && Run(Step(Scan(After, ITEMS), ','), entry) == Scan(After, ITEMS)
  }

  lemma {:induction false} WholeIsItem(span: Span, entry: string)
    requires IsPlain(span.name) && entry == Entry(span)
    ensures IsItem(entry)
  {
    AfterItem(Scan(After, ITEMS));
    EntryRuns(FIRST, span, entry);
    EntryRuns(Step(Scan(After, ITEMS), ','), span, entry);
  }

  lemma {:induction false} ItemsRun(cuts: seq<string>, k: nat)
    requires k <= |cuts| && forall i :: 0 <= i < k ==> IsItem(cuts[i])
    ensures Before(cuts, k) == if k == 0 then FIRST else Scan(After, ITEMS)
  {
    if k > 0 {
      ItemsRun(cuts, k - 1);
      BeforeNext(cuts, k - 1);
      assert IsItem(cuts[k - 1]);
    }
  }

  /** Entries that are not cut are elements of the array. */
  lemma {:induction false} WholeRun(cuts: seq<string>, entries: seq<string>, calls: seq<Span>, k: nat)
    requires AreCuts(cuts, entries, calls) && k <= |calls| && WholeUpTo(entries, k)
    ensures Before(cuts, k) == if k == 0 then FIRST else Scan(After, ITEMS)
  {
    forall i | 0 <= i < k
      ensures IsItem(cuts[i])
    {
      WholeIsItem(calls[i], cuts[i]);
    }
    ItemsRun(cuts, k);
  }

  predicate Stuck(s: Scan) { s.mode.Bad? || s.open == FIELDS }

  /** Behind the first entry that is cut, its brace is open. */
  lemma {:induction false} FirstCutRuns(cuts: seq<string>, entries: seq<string>, calls: seq<Span>, i: nat)
    requires AreCuts(cuts, entries, calls) && i < |calls| && |entries[i]| >= ENTRY && WholeUpTo(entries, i)
    ensures Stuck(Before(cuts, i + 1))
  {
    BeforeNext(cuts, i);
    WholeRun(cuts, entries, calls, i);
    AfterItem(Scan(After, ITEMS));
    CutStaysOpen(if i == 0 then FIRST else Step(Scan(After, ITEMS), ','), calls[i]);
  }

  /** From there on it stays open or the text is spoilt. */
  lemma {:induction false} CutRuns(cuts: seq<string>, i: nat, k: nat)
    requires 0 < i <= k <= |cuts| && Stuck(Before(cuts, i))
    requires forall j :: 0 <= j < |cuts| ==> StartsLikeOne(cuts[j])
    ensures Stuck(Before(cuts, k))
  {
    if i < k {
      CutRuns(cuts, i, k - 1);
      BeforeNext(cuts, k - 1);
      StuckStays(Before(cuts, k - 1), cuts[k - 1]);
    }
  }

  lemma {:induction false} StuckStays(s: Scan, entry: string)
    requires Stuck(s) && StartsLikeOne(entry)
    ensures Stuck(Run(Step(s, ','), entry))
  {
    RunCons(s, ',', entry);
    assert [','] + entry == "," + entry;
    if s.mode.Bad? {
      BadStays(s, "," + entry);
    } else {
      NextEntryIsBad(s, entry);
    }
  }

  lemma {:induction false} StuckNeverEnds(s: Scan)
    requires Stuck(s)
    ensures !Ends(Step(s, ']'))
  {
  }

  /** The first of the entries that had to be cut, if there is one. */
  lemma {:induction false} FirstLong(entries: seq<string>) returns (i: nat)
    requires !WholeUpTo(entries, |entries|)
    ensures i < |entries| && |entries[i]| >= ENTRY && WholeUpTo(entries, i)
  {
    i := 0;
    while |entries[i]| < ENTRY
      invariant i < |entries| && WholeUpTo(entries, i)
      decreases |entries| - i
    {
      i := i + 1;
    }
  }

  lemma {:induction false} CutsStart(cuts: seq<string>, entries: seq<string>, calls: seq<Span>)
    requires AreCuts(cuts, entries, calls)
    ensures forall j :: 0 <= j < |cuts| ==> StartsLikeOne(cuts[j])
  {
    forall j | 0 <= j < |cuts|
      ensures StartsLikeOne(cuts[j])
    {
      CutStarts(calls[j]);
    }
  }

  /** Among any calls, the array is JSON exactly if no entry was cut. */
  lemma {:induction false} JsonExactly(cuts: seq<string>, entries: seq<string>, calls: seq<Span>)
    requires AreCuts(cuts, entries, calls)
    ensures IsJson(Bracketed(cuts)) <==> WholeUpTo(entries, |entries|)
  {
    BracketedRuns(cuts);
    assert cuts[..|cuts|] == cuts;
    if WholeUpTo(entries, |entries|) {
      WholeRun(cuts, entries, calls, |calls|);
      WholeEnds(Before(cuts, |cuts|));
    } else {
      var i := FirstLong(entries);
      FirstCutRuns(cuts, entries, calls, i);
      CutsStart(cuts, entries, calls);
      CutRuns(cuts, i + 1, |cuts|);
      StuckNeverEnds(Before(cuts, |cuts|));
    }
  }

  lemma {:induction false} WholeEnds(s: Scan)
    requires s == FIRST || s == Scan(After, ITEMS)
    ensures Ends(Step(s, ']'))
  {
  }

  lemma {:induction false} CutsOf(calls: seq<Span>, k: nat)
    requires AllPlain(calls) && k <= |calls|
    ensures AreCuts(CutAll(Entries(calls))[..k], Entries(calls)[..k], calls[..k])
  {
  }

  lemma {:induction false} WholeAreEntries(cuts: seq<string>, entries: seq<string>, calls: seq<Span>)
    requires AreCuts(cuts, entries, calls) && WholeUpTo(entries, |entries|)
    ensures Bracketed(cuts) == Render(calls) && AllPlain(calls)
  {
    assert cuts == Entries(calls);
  }

  lemma {:induction false} WholeTake(entries: seq<string>, k: nat)
    requires k <= |entries|
    ensures WholeUpTo(entries[..k], |entries[..k]|) <==> WholeUpTo(entries, k)
  {
    forall i | 0 <= i < k
      ensures entries[i] == entries[..k][i]
    {
    }
  }

  lemma {:induction false} BracketedExactly(text: string, cuts: seq<string>, entries: seq<string>, calls: seq<Span>)
    requires AreCuts(cuts, entries, calls) && text == Bracketed(cuts)
    ensures IsJson(text) <==> WholeUpTo(entries, |entries|)
    ensures WholeUpTo(entries, |entries|) ==> Parse(text) == Some(calls)
  {
    JsonExactly(cuts, entries, calls);
    if WholeUpTo(entries, |entries|) {
      WholeAreEntries(cuts, entries, calls);
      ParsesRendered(calls);
    }
  }

  /**
    * For names that need no escape and any sequence of calls: the buffer is JSON exactly if every entry
    * written into it, before recording stopped, was shorter than 256 characters; and then it is read back as
    * the calls written.
    */
  lemma {:induction false} ReadableExactly(calls: seq<Span>)
    requires AllPlain(calls)
    ensures IsJson(AddedAll(Entries(calls))) <==> WholeUpTo(Entries(calls), Written(calls))
    ensures WholeUpTo(Entries(calls), Written(calls)) ==>
              Parse(AddedAll(Entries(calls))) == Some(calls[..Written(calls)])
  {
    var k := Written(calls);
    BufferIs(calls);
    CutsOf(calls, k);
    WholeTake(Entries(calls), k);
    BracketedExactly(AddedAll(Entries(calls)), CutAll(Entries(calls))[..k], Entries(calls)[..k], calls[..k]);
  }

  /** A name of 213 characters or more is too long for an entry, whatever the numbers. */
  lemma {:induction false} LongNameBreaks(calls: seq<Span>, i: nat)
    requires AllPlain(calls) && i < Written(calls) && |calls[i].name| >= 213
    ensures !IsJson(AddedAll(Entries(calls)))
  {
    EntryLength(calls[i]);
    NumberLength(calls[i].latency);
    ReadableExactly(calls);
  }

  lemma {:induction false} NumberLength(n: int)
    ensures |Number(n)| >= 1
  {
  }
}
