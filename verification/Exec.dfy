/** Turning the `exec` string into an argv: specifiers first, then quotes and backslashes. */
module Exec {
  import opened Names
  import opened Wrappers

  datatype Specifiers = Specifiers(name: string, fullName: string, hostname: string, user: string)

  datatype ExecError =
    | Empty
    | NotAbsolute(program: string)
    | UnknownSpecifier(specifier: char)
    | TrailingPercent
    | TrailingBackslash
    | UnterminatedQuote

  /** The characters Unicode calls white space. */
  predicate IsSpace(c: char)
  {
    || '\t' <= c <= '\r' || c == ' ' || c == '\U{85}' || c == '\U{A0}' || c == '\U{1680}'
    || '\U{2000}' <= c <= '\U{200A}' || c == '\U{2028}' || c == '\U{2029}' || c == '\U{202F}' || c == '\U{205F}'
    || c == '\U{3000}'
  }

  // ----- Specifiers -----

  function Substitute(c: char, sp: Specifiers): Option<string>
  {
    match c
    case 'n' => Some(sp.name)
    case 'N' => Some(sp.fullName)
    case 'H' => Some(sp.hostname)
    case 'u' => Some(sp.user)
    case '%' => Some("%")
    case _ => None
  }

  function Before(out: string, r: Result<string, ExecError>): Result<string, ExecError>
  {
    if r.Ok? then Ok(out + r.value) else r
  }

  function Expand(input: string, sp: Specifiers): Result<string, ExecError>
    decreases |input|
  {
    if input == "" then Ok("")
    else if input[0] != '%' then Before([input[0]], Expand(input[1..], sp))
    else if |input| == 1 then Err(TrailingPercent)
    else
      match Substitute(input[1], sp)
      case None => Err(UnknownSpecifier(input[1]))
      case Some(text) => Before(text, Expand(input[2..], sp))
  }

  method DoExpand(input: string, sp: Specifiers) returns (r: Result<string, ExecError>)
    ensures r == Expand(input, sp)
  {
    var out := "";
    var i := 0;
    BeforeNothing(Expand(input, sp));
    assert input[0..] == input;
    while i < |input|
      invariant i <= |input|
      invariant Expand(input, sp) == Before(out, Expand(input[i..], sp))
    {
      var c := input[i];
      assert input[i..][1..] == input[i + 1..];
      i := i + 1;
      if c != '%' {
        BeforeJoins(out, [c], Expand(input[i..], sp));
        out := out + [c];
        continue;
      }
      if i == |input| {
        return Err(TrailingPercent);
      }
      assert input[i - 1..][2..] == input[i + 1..];
      match Substitute(input[i], sp) {
        case None =>
          return Err(UnknownSpecifier(input[i]));
        case Some(text) =>
          BeforeJoins(out, text, Expand(input[i + 1..], sp));
          out := out + text;
      }
      i := i + 1;
    }
    AppendNothing(out);
    return Ok(out);
  }

  lemma BeforeNothing(r: Result<string, ExecError>)
    ensures Before("", r) == r
  {
    if r.Ok? {
      AppendNothing(r.value);
    }
  }

  lemma BeforeJoins(a: string, b: string, r: Result<string, ExecError>)
    ensures Before(a, Before(b, r)) == Before(a + b, r)
  {
    if r.Ok? {
      AppendInParts(a, b, r.value);
    }
  }

  // ----- Splitting, one character at a time -----

  datatype Lexer = Lexer(argv: seq<string>, current: string, hasCurrent: bool, quote: Option<char>, escaped: bool)

  const START := Lexer([], "", false, None, false)

  function Push(l: Lexer, c: char): Lexer
  {
    l.(current := l.current + [c], hasCurrent := true, escaped := false)
  }

  function Advance(l: Lexer, c: char): Lexer
  {
    if l.escaped then Push(l, c)
    else if c == '\\' then l.(escaped := true)
    else if (c == '"' || c == '\'') && l.quote.None? then l.(quote := Some(c), hasCurrent := true)
    else if l.quote == Some(c) then l.(quote := None)
    else if IsSpace(c) && l.quote.None? then
      if l.hasCurrent then l.(argv := l.argv + [l.current], current := "", hasCurrent := false) else l
    else Push(l, c)
  }

  function Scan(l: Lexer, text: string): Lexer
    decreases |text|
  {
    if text == "" then l else Scan(Advance(l, text[0]), text[1..])
  }

  function Finish(l: Lexer): Result<seq<string>, ExecError>
  {
    if l.escaped then Err(TrailingBackslash)
    else if l.quote.Some? then Err(UnterminatedQuote)
    else Ok(if l.hasCurrent then l.argv + [l.current] else l.argv)
  }

  function Split(input: string): Result<seq<string>, ExecError>
  {
    Finish(Scan(START, input))
  }

  method DoSplit(input: string) returns (r: Result<seq<string>, ExecError>)
    ensures r == Split(input)
  {
    hide IsSpace;
    var argv: seq<string> := [];
    var current := "";
    var hasCurrent := false;
    var quote: Option<char> := None;
    var i := 0;
    while i < |input|
      invariant i <= |input|
      invariant Scan(START, input) == Scan(Lexer(argv, current, hasCurrent, quote, false), input[i..])
    {
      var c := input[i];
      assert input[i..][1..] == input[i + 1..];
      i := i + 1;
      if c == '\\' {
        if i == |input| {
          return Err(TrailingBackslash);
        }
        assert input[i..][1..] == input[i + 1..];
        current := current + [input[i]];
        hasCurrent := true;
        i := i + 1;
      } else if (c == '"' || c == '\'') && quote == None {
        quote := Some(c);
        hasCurrent := true;
      } else if quote == Some(c) {
        quote := None;
      } else if IsSpace(c) && quote == None {
        if hasCurrent {
          argv := argv + [current];
          current := "";
          hasCurrent := false;
        }
      } else {
        current := current + [c];
        hasCurrent := true;
      }
    }
    if quote.Some? {
      return Err(UnterminatedQuote);
    }
    if hasCurrent {
      argv := argv + [current];
    }
    return Ok(argv);
  }

  function Parse(exec: string, sp: Specifiers): Result<seq<string>, ExecError>
  {
    match Expand(exec, sp)
    case Err(e) => Err(e)
    case Ok(text) =>
      match Split(text)
      case Err(e) => Err(e)
      case Ok(argv) =>
        if argv == [] then Err(Empty)
        else if argv[0] == "" || argv[0][0] != '/' then Err(NotAbsolute(argv[0]))
        else Ok(argv)
  }

  method DoParse(exec: string, sp: Specifiers) returns (r: Result<seq<string>, ExecError>)
    ensures r == Parse(exec, sp)
  {
    var expanded := DoExpand(exec, sp);
    if expanded.Err? {
      return Err(expanded.error);
    }
    var argv := DoSplit(expanded.value);
    if argv.Err? {
      return argv;
    }
    if argv.value == [] {
      return Err(Empty);
    }
    var program := argv.value[0];
    if !("/" <= program) {
      return Err(NotAbsolute(program));
    }
    return argv;
  }

  // ----- Quoting -----

  /** One argument: every character behind a backslash, nothing at all as an empty pair of quotes. */
  function Quoted(arg: string): string
  {
    if arg == "" then "\"\"" else Escaped(arg)
  }

  function Escaped(text: string): string
  {
    if text == "" then "" else ['\\', text[0]] + Escaped(text[1..])
  }

  function Joined(argv: seq<string>): string
  {
    if argv == [] then "" else if |argv| == 1 then Quoted(argv[0]) else Quoted(argv[0]) + " " + Joined(argv[1..])
  }

  function Doubled(text: string): string
  {
    if text == "" then "" else (if text[0] == '%' then "%%" else [text[0]]) + Doubled(text[1..])
  }

  lemma {:induction false} ExpandUndoesDoubling(text: string, sp: Specifiers)
    ensures Expand(Doubled(text), sp) == Ok(text)
  {
    if text != "" {
      ExpandUndoesDoubling(text[1..], sp);
      var d := Doubled(text);
      if text[0] == '%' {
        assert d[2..] == Doubled(text[1..]);
      } else {
        assert d[1..] == Doubled(text[1..]);
      }
      assert [text[0]] + text[1..] == text;
    }
  }

  lemma {:induction false} ScanJoins(l: Lexer, a: string, b: string)
    ensures Scan(l, a + b) == Scan(Scan(l, a), b)
    decreases |a|
  {
    hide Advance;
    if a == "" {
      assert a + b == b;
    } else {
      assert (a + b)[1..] == a[1..] + b;
      ScanJoins(Advance(l, a[0]), a[1..], b);
    }
  }

  lemma {:induction false} ScanEscaped(l: Lexer, text: string)
    requires !l.escaped && text != ""
    ensures Scan(l, Escaped(text)) == l.(current := l.current + text, hasCurrent := true)
    decreases |text|
  {
    hide IsSpace;
    var e := Escaped(text);
    var next := Push(l, text[0]);
    assert e[1..][1..] == Escaped(text[1..]) && e[1..][0] == text[0];
    assert Scan(l, e) == Scan(next, Escaped(text[1..]));
    assert l.current + [text[0]] + text[1..] == l.current + text;
    if text[1..] == "" {
      AppendNothing(l.current + [text[0]]);
    } else {
      ScanEscaped(next, text[1..]);
    }
  }

  lemma ScanQuoted(argv: seq<string>, arg: string)
    ensures Scan(Lexer(argv, "", false, None, false), Quoted(arg)) == Lexer(argv, arg, true, None, false)
  {
    var l := Lexer(argv, "", false, None, false);
    if arg == "" {
      assert "\"\""[1..] == "\"" && "\""[1..] == "";
      var inside := Advance(l, '"');
      assert Scan(l, "\"\"") == Scan(inside, "\"");
      assert Scan(inside, "\"") == Scan(Advance(inside, '"'), "");
    } else {
      ScanEscaped(l, arg);
      assert "" + arg == arg;
    }
  }

  lemma ScanSpace(l: Lexer)
    requires !l.escaped && l.quote.None?
    ensures Scan(l, " ") ==
            if l.hasCurrent then Lexer(l.argv + [l.current], "", false, None, false)
            else Lexer(l.argv, l.current, false, None, false)
  {
    assert " "[1..] == "";
  }

  lemma {:induction false} ScanJoined(before: seq<string>, argv: seq<string>)
    ensures Finish(Scan(Lexer(before, "", false, None, false), Joined(argv))) == Ok(before + argv)
    decreases |argv|
  {
    hide Advance, Quoted;
    var l := Lexer(before, "", false, None, false);
    if argv == [] {
      AppendNothing(before);
    } else {
      ScanQuoted(before, argv[0]);
      if |argv| == 1 {
        assert argv == [argv[0]];
      } else {
        ScanJoins(l, Quoted(argv[0]) + " ", Joined(argv[1..]));
        ScanJoins(l, Quoted(argv[0]), " ");
        ScanSpace(Scan(l, Quoted(argv[0])));
        ScanJoined(before + [argv[0]], argv[1..]);
        assert before + [argv[0]] + argv[1..] == before + argv;
      }
    }
  }

  /**
   * Quoting an argv and parsing it gives it back, whatever its characters and whatever the specifiers mean; only
   * no program, or one that is not absolute, is refused.
   */
  lemma QuotingRoundTrips(argv: seq<string>, sp: Specifiers)
    ensures Parse(Doubled(Joined(argv)), sp) ==
            if argv == [] then Err(Empty)
            else if argv[0] == "" || argv[0][0] != '/' then Err(NotAbsolute(argv[0]))
            else Ok(argv)
  {
    ExpandUndoesDoubling(Joined(argv), sp);
    ScanJoined([], argv);
    assert [] + argv == argv;
  }

  // ----- Splitting is compositional -----

  function Onto(before: seq<string>, l: Lexer): Lexer
  {
    l.(argv := before + l.argv)
  }

  lemma {:induction false} ScanOnto(before: seq<string>, l: Lexer, text: string)
    ensures Scan(Onto(before, l), text) == Onto(before, Scan(l, text))
    decreases |text|
  {
    hide IsSpace;
    if text != "" {
      AppendInParts(before, l.argv, [l.current]);
      assert Advance(Onto(before, l), text[0]) == Onto(before, Advance(l, text[0]));
      ScanOnto(before, Advance(l, text[0]), text[1..]);
    }
  }

  /** Nothing left over in the current word unless a word is under way. */
  lemma {:induction false} NoWordIsEmpty(l: Lexer, text: string)
    requires l.hasCurrent || l.current == ""
    ensures Scan(l, text).hasCurrent || Scan(l, text).current == ""
    decreases |text|
  {
    hide IsSpace;
    if text != "" {
      NoWordIsEmpty(Advance(l, text[0]), text[1..]);
    }
  }

  /** After a command line that splits, a space and more text mean exactly that text's arguments added, or its error. */
  lemma SplittingIsCompositional(a: string, b: string)
    requires Split(a).Ok?
    ensures Split(a + " " + b) == match Split(b) case Ok(more) => Ok(Split(a).value + more) case Err(e) => Err(e)
  {
    hide Advance, Scan;
    var l := Scan(START, a);
    NoWordIsEmpty(START, a);
    ScanJoins(START, a + " ", b);
    ScanJoins(START, a, " ");
    ScanSpace(l);
    var argv := Split(a).value;
    AppendNothing(argv);
    assert Scan(l, " ") == Onto(argv, START);
    ScanOnto(argv, START, b);
    var m := Scan(START, b);
    AppendInParts(argv, m.argv, [m.current]);
  }
}
