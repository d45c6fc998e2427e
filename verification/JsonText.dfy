/**
  * Which texts are JSON, by the grammar in sections 2 to 7 of RFC 8259, decided character by character with a
  * stack of open brackets.
  */
module JsonText {
  import opened Prelude

  datatype Bracket = Curly | Square

  datatype Word = True | False | Null

  /** What may come next. */
  datatype Mode =
    | Value
    | FirstItem
    | FirstKey
    | Key
    | Colon
    | After
    | Text(key: bool)
    | Escape(key: bool)
    | Hex(key: bool, left: nat)
    | Minus
    | Zero
    | Digit
    | Point
    | Fraction
    | Exponent
    | ExponentSign
    | ExponentDigit
    | Letters(word: Word, at: nat)
    | Bad

  /** The brackets still open, the innermost last. */
  datatype Scan = Scan(mode: Mode, open: seq<Bracket>)

  const START := Scan(Value, [])

  function Spelled(word: Word): string {
    match word
    case True => "true"
    case False => "false"
    case Null => "null"
  }

  predicate IsBlank(c: char) { c == ' ' || c == '\t' || c == '\n' || c == '\r' }

  predicate IsDigit(c: char) { '0' <= c <= '9' }

  predicate IsHex(c: char) { IsDigit(c) || 'a' <= c <= 'f' || 'A' <= c <= 'F' }

  function NumberStart(c: char, otherwise: Mode): Mode {
    if c == '0' then Zero else if IsDigit(c) then Digit else otherwise
  }

  function ValueStep(open: seq<Bracket>, c: char): Scan {
    if IsBlank(c) then Scan(Value, open)
    else if c == '{' then Scan(FirstKey, open + [Curly])
    else if c == '[' then Scan(FirstItem, open + [Square])
    else
      var mode :=
        if c == '"' then Text(false)
        else if c == '-' then Minus
        else if c == 't' then Letters(True, 1)
        else if c == 'f' then Letters(False, 1)
        else if c == 'n' then Letters(Null, 1)
        else NumberStart(c, Bad);
      Scan(mode, open)
  }

  function KeyStep(open: seq<Bracket>, c: char, empty: Mode): Scan {
    if IsBlank(c) then Scan(empty, open) else Scan(if c == '"' then Text(true) else Bad, open)
  }

  /** Behind a complete value. */
  function AfterStep(open: seq<Bracket>, c: char): Scan {
    if IsBlank(c) then Scan(After, open)
    else if open == [] then Scan(Bad, open)
    else if c == ',' then Scan(if Last(open) == Curly then Key else Value, open)
    else if c == (if Last(open) == Curly then '}' else ']') then Scan(After, Front(open))
    else Scan(Bad, open)
  }

  function TextStep(key: bool, c: char): Mode {
    if c == '"' then (if key then Colon else After)
    else if c == '\\' then Escape(key)
    else if c < ' ' then Bad
    else Text(key)
  }

  function EscapeStep(key: bool, c: char): Mode {
    if c == 'u' then Hex(key, 4)
    else if c in "\"\\/bfnrt" then Text(key)
    else Bad
  }

  function HexStep(key: bool, left: nat, c: char): Mode {
    if !IsHex(c) || left == 0 then Bad else if left == 1 then Text(key) else Hex(key, left - 1)
  }

  function LettersStep(word: Word, at: nat, c: char): Mode {
    var letters := Spelled(word);
    if at >= |letters| || c != letters[at] then Bad
    else if at + 1 == |letters| then After
    else Letters(word, at + 1)
  }

  /** A number that may end here. */
  predicate IsWhole(mode: Mode) { mode.Zero? || mode.Digit? || mode.Fraction? || mode.ExponentDigit? }

  /** The number goes on, if it can. */
  function NumberStep(mode: Mode, c: char): Mode {
    match mode
    case Minus => NumberStart(c, Bad)
    case Zero => if c == '.' then Point else if c == 'e' || c == 'E' then Exponent else Bad
    case Digit =>
      if IsDigit(c) then Digit else if c == '.' then Point else if c == 'e' || c == 'E' then Exponent else Bad
    case Point => if IsDigit(c) then Fraction else Bad
    case Fraction => if IsDigit(c) then Fraction else if c == 'e' || c == 'E' then Exponent else Bad
    case Exponent => if c == '+' || c == '-' then ExponentSign else if IsDigit(c) then ExponentDigit else Bad
    case ExponentSign => if IsDigit(c) then ExponentDigit else Bad
    case ExponentDigit => if IsDigit(c) then ExponentDigit else Bad
    case _ => Bad
  }

  function Step(s: Scan, c: char): Scan {
    match s.mode
    case Value => ValueStep(s.open, c)
    case FirstItem =>
      if IsBlank(c) then s else if c == ']' then AfterStep(s.open, c) else ValueStep(s.open, c)
    case FirstKey => if c == '}' then AfterStep(s.open, c) else KeyStep(s.open, c, FirstKey)
    case Key => KeyStep(s.open, c, Key)
    case Colon => Scan(if IsBlank(c) then Colon else if c == ':' then Value else Bad, s.open)
    case After => AfterStep(s.open, c)
    case Text(key) => Scan(TextStep(key, c), s.open)
    case Escape(key) => Scan(EscapeStep(key, c), s.open)
    case Hex(key, left) => Scan(HexStep(key, left, c), s.open)
    case Letters(word, at) => Scan(LettersStep(word, at, c), s.open)
    case Bad => s
    case _ =>
      var mode := NumberStep(s.mode, c);
      if mode.Bad? && IsWhole(s.mode) then AfterStep(s.open, c) else Scan(mode, s.open)
  }

  function Run(s: Scan, text: string): Scan {
    if text == "" then s else Step(Run(s, Front(text)), Last(text))
  }

  predicate Ends(s: Scan) { s.open == [] && (s.mode.After? || IsWhole(s.mode)) }

  /** One value, with blanks around it. */
  predicate IsJson(text: string) { Ends(Run(START, text)) }

  // ---------------------------------------------------------------------------------------
  // Runs

  lemma {:induction false} RunConcat(s: Scan, a: string, b: string)
    ensures Run(s, a + b) == Run(Run(s, a), b)
  {
    if b == "" {
      assert a + b == a;
    } else {
      assert Front(a + b) == a + Front(b) && Last(a + b) == Last(b);
      RunConcat(s, a, Front(b));
    }
  }

  lemma {:induction false} RunOne(s: Scan, c: char)
    ensures Run(s, [c]) == Step(s, c)
  {
    assert Front([c]) == "";
  }

  /** One character, and then the rest. */
  lemma {:induction false} RunCons(s: Scan, c: char, rest: string)
    ensures Run(s, [c] + rest) == Run(Step(s, c), rest)
  {
    RunConcat(s, [c], rest);
    RunOne(s, c);
  }

  lemma {:induction false} BadStays(s: Scan, text: string)
    requires s.mode.Bad?
    ensures Run(s, text) == s
  {
    if text != "" {
      BadStays(s, Front(text));
    }
  }

  predicate IsBracket(c: char) { c == '{' || c == '}' || c == '[' || c == ']' }

  /** Without brackets, none is opened or closed. */
  lemma {:induction false} OpenStays(s: Scan, text: string)
    requires forall i :: 0 <= i < |text| ==> !IsBracket(text[i])
    ensures Run(s, text).open == s.open
  {
    if text != "" {
      OpenStays(s, Front(text));
      assert !IsBracket(Last(text));
    }
  }

  /** A text that JSON shows as it is. */
  predicate IsPlain(text: string) {
    forall i :: 0 <= i < |text| ==> text[i] >= ' ' && text[i] != '"' && text[i] != '\\'
  }

  /** Inside a string. */
  lemma {:induction false} PlainRuns(key: bool, open: seq<Bracket>, text: string)
    requires IsPlain(text)
    ensures Run(Scan(Text(key), open), text) == Scan(Text(key), open)
  {
    if text != "" {
      PlainRuns(key, open, Front(text));
      assert Last(text) >= ' ' && Last(text) != '"' && Last(text) != '\\';
    }
  }

  function Quoted(text: string): string { "\"" + (text + "\"") }

  lemma {:induction false} QuotedRuns(s: Scan, key: bool, text: string)
    requires IsPlain(text) && Step(s, '"') == Scan(Text(key), s.open)
    ensures Run(s, Quoted(text)) == Scan(if key then Colon else After, s.open)
  {
    RunCons(s, '"', text + "\"");
    RunConcat(Scan(Text(key), s.open), text, "\"");
    PlainRuns(key, s.open, text);
    RunOne(Scan(Text(key), s.open), '"');
  }

  /** A key and its colon. */
  lemma {:induction false} KeyRuns(s: Scan, text: string)
    requires IsPlain(text) && (s.mode.Key? || s.mode.FirstKey?)
    ensures Run(s, Quoted(text) + ":") == Scan(Value, s.open)
  {
    QuotedRuns(s, true, text);
    RunConcat(s, Quoted(text), ":");
    RunOne(Scan(Colon, s.open), ':');
  }
}
