/** What a command line means: the grammar of its words, its quoted runs and its specifiers. */
module CommandLines {
  import opened Names
  import opened Wrappers
  import opened Exec

  // ----- Words, as they are written -----

  /** A character by itself, or behind a backslash. */
  datatype Char = Bare(c: char) | Behind(c: char)

  /** Part of a word: outside quotes, or a run between two of the same quote. */
  datatype Piece = Open(chars: seq<Char>) | Run(quote: char, chars: seq<Char>)

  /** A word and the white space after it. */
  datatype Word = Word(pieces: seq<Piece>, gap: string)

  datatype Line = Line(lead: string, words: seq<Word>)

  predicate IsQuote(c: char)
  {
    c == '"' || c == '\''
  }

  /** A run holds anything but its own quote; outside runs white space and both quotes need a backslash. */
  predicate ProperPiece(p: Piece)
  {
    match p
    case Open(chars) =>
      chars != [] && forall x | x in chars :: x.Bare? ==> x.c != '\\' && !IsQuote(x.c) && !IsSpace(x.c)
    case Run(q, chars) =>
      IsQuote(q) && forall x | x in chars :: x.Bare? ==> x.c != '\\' && x.c != q
  }

  predicate IsGap(text: string)
  {
    forall i | 0 <= i < |text| :: IsSpace(text[i])
  }

  predicate ProperWords(words: seq<Word>)
  {
    && (forall i | 0 <= i < |words| ::
          words[i].pieces != [] && (forall p | p in words[i].pieces :: ProperPiece(p)) && IsGap(words[i].gap))
    && forall i | 0 <= i < |words| - 1 :: words[i].gap != ""
  }

  predicate Proper(line: Line)
  {
    IsGap(line.lead) && ProperWords(line.words)
  }

  // ----- How they are written, and what they mean -----

  function CharsWritten(chars: seq<Char>): string
  {
    if chars == [] then ""
    else (if chars[0].Bare? then [chars[0].c] else ['\\', chars[0].c]) + CharsWritten(chars[1..])
  }

  function PieceWritten(p: Piece): string
  {
    if p.Open? then CharsWritten(p.chars) else [p.quote] + CharsWritten(p.chars) + [p.quote]
  }

  function PiecesWritten(pieces: seq<Piece>): string
  {
    if pieces == [] then "" else PieceWritten(pieces[0]) + PiecesWritten(pieces[1..])
  }

  function WordsWritten(words: seq<Word>): string
  {
    if words == [] then "" else PiecesWritten(words[0].pieces) + words[0].gap + WordsWritten(words[1..])
  }

  function Written(line: Line): string
  {
    line.lead + WordsWritten(line.words)
  }

  /** The characters themselves. */
  function CharsMean(chars: seq<Char>): (text: string)
    ensures |text| == |chars| && forall i | 0 <= i < |chars| :: text[i] == chars[i].c
  {
    seq(|chars|, i requires 0 <= i < |chars| => chars[i].c)
  }

  /** Runs and what stands between them join up. */
  function PiecesMean(pieces: seq<Piece>): string
  {
    if pieces == [] then "" else CharsMean(pieces[0].chars) + PiecesMean(pieces[1..])
  }

  /** One argument for each word. */
  function Means(words: seq<Word>): (argv: seq<string>)
    ensures |argv| == |words| && forall i | 0 <= i < |words| :: argv[i] == PiecesMean(words[i].pieces)
  {
    seq(|words|, i requires 0 <= i < |words| => PiecesMean(words[i].pieces))
  }

  // ----- The scanner reads them so -----

  lemma MeansFirst(chars: seq<Char>)
    requires chars != []
    ensures CharsMean(chars) == [chars[0].c] + CharsMean(chars[1..])
  {
  }

  lemma ScanTwo(l: Lexer, a: char, b: char, rest: string)
    ensures Scan(l, [a, b] + rest) == Scan(Advance(Advance(l, a), b), rest)
  {
    hide Advance;
    var text := [a, b] + rest;
    assert text[1..] == [b] + rest && text[1..][1..] == rest;
  }

  lemma ScanOne(l: Lexer, a: char, rest: string)
    ensures Scan(l, [a] + rest) == Scan(Advance(l, a), rest)
  {
    hide Advance;
    assert ([a] + rest)[1..] == rest;
  }

  /** One character, bare where it may be, or behind a backslash. */
  lemma AdvanceChar(l: Lexer, x: Char)
    requires !l.escaped
    requires x.Bare? ==> x.c != '\\' && l.quote != Some(x.c) && (l.quote.None? ==> !IsQuote(x.c) && !IsSpace(x.c))
    ensures x.Bare? ==> Advance(l, x.c) == Push(l, x.c)
    ensures x.Behind? ==> Advance(Advance(l, '\\'), x.c) == Push(l, x.c)
  {
  }

  lemma {:induction false} ScanChars(l: Lexer, chars: seq<Char>)
    requires !l.escaped
    requires forall x | x in chars ::
               x.Bare? ==> x.c != '\\' && l.quote != Some(x.c) && (l.quote.None? ==> !IsQuote(x.c) && !IsSpace(x.c))
    ensures Scan(l, CharsWritten(chars)) ==
            l.(current := l.current + CharsMean(chars), hasCurrent := l.hasCurrent || chars != [])
    decreases |chars|
  {
    hide IsSpace, Advance, Scan;
    if chars == [] {
      ScanNothing(l);
      AppendNothing(l.current);
    } else {
      var next := Push(l, chars[0].c);
      AdvanceChar(l, chars[0]);
      ScanOne(l, chars[0].c, CharsWritten(chars[1..]));
      ScanTwo(l, '\\', chars[0].c, CharsWritten(chars[1..]));
      ScanChars(next, chars[1..]);
      MeansFirst(chars);
      AppendInParts(l.current, [chars[0].c], CharsMean(chars[1..]));
    }
  }

  lemma ScanNothing(l: Lexer)
    ensures Scan(l, "") == l
  {
  }

  lemma AdvanceQuote(l: Lexer, q: char)
    requires !l.escaped && IsQuote(q)
    ensures l.quote.None? ==> Advance(l, q) == l.(quote := Some(q), hasCurrent := true)
    ensures l.quote == Some(q) ==> Advance(l, q) == l.(quote := None)
  {
  }

  lemma ScanPiece(l: Lexer, p: Piece)
    requires !l.escaped && l.quote.None? && ProperPiece(p)
    ensures Scan(l, PieceWritten(p)) == l.(current := l.current + CharsMean(p.chars), hasCurrent := true)
  {
    hide IsSpace, Advance, Scan;
    match p
    case Open(chars) => ScanChars(l, chars);
    case Run(q, chars) =>
      var inside := l.(quote := Some(q), hasCurrent := true);
      AdvanceQuote(l, q);
      ScanJoins(l, [q] + CharsWritten(chars), [q]);
      ScanOne(l, q, CharsWritten(chars));
      ScanChars(inside, chars);
      var done := inside.(current := l.current + CharsMean(chars));
      AdvanceQuote(done, q);
      ScanOne(done, q, "");
      AppendNothing([q]);
      ScanNothing(Advance(done, q));
  }

  lemma {:induction false} ScanPieces(l: Lexer, pieces: seq<Piece>)
    requires !l.escaped && l.quote.None? && forall p | p in pieces :: ProperPiece(p)
    ensures Scan(l, PiecesWritten(pieces)) ==
            l.(current := l.current + PiecesMean(pieces), hasCurrent := l.hasCurrent || pieces != [])
    decreases |pieces|
  {
    hide Scan, ProperPiece, CharsMean;
    if pieces == [] {
      ScanNothing(l);
      AppendNothing(l.current);
    } else {
      ScanJoins(l, PieceWritten(pieces[0]), PiecesWritten(pieces[1..]));
      ScanPiece(l, pieces[0]);
      ScanPieces(l.(current := l.current + CharsMean(pieces[0].chars), hasCurrent := true), pieces[1..]);
      AppendInParts(l.current, CharsMean(pieces[0].chars), PiecesMean(pieces[1..]));
    }
  }

  /** White space ends the word under way, if there is one, and that is all. */
  lemma {:induction false} ScanGap(l: Lexer, gap: string)
    requires !l.escaped && l.quote.None? && IsGap(gap) && (!l.hasCurrent ==> l.current == "")
    ensures Scan(l, gap) ==
            if gap != "" && l.hasCurrent then Lexer(l.argv + [l.current], "", false, None, false) else l
    decreases |gap|
  {
    if gap != "" {
      assert IsSpace(gap[0]) && !IsQuote(gap[0]) && gap[0] != '\\';
      hide IsSpace;
      ScanGap(Advance(l, gap[0]), gap[1..]);
    }
  }

  /** The words there are so far, the last of them perhaps not ended yet. */
  lemma {:induction false} ScanWords(before: seq<string>, words: seq<Word>)
    requires ProperWords(words)
    ensures Finish(Scan(Lexer(before, "", false, None, false), WordsWritten(words))) == Ok(before + Means(words))
    decreases |words|
  {
    hide Scan, ProperPiece, IsSpace;
    var l := Lexer(before, "", false, None, false);
    if words == [] {
      ScanNothing(l);
      AppendNothing(before);
    } else {
      var w := words[0];
      var arg := PiecesMean(w.pieces);
      var text := PiecesWritten(w.pieces) + w.gap;
      ScanJoins(l, text, WordsWritten(words[1..]));
      ScanJoins(l, PiecesWritten(w.pieces), w.gap);
      ScanPieces(l, w.pieces);
      NothingBefore(arg);
      var read := Lexer(before, arg, true, None, false);
      ScanGap(read, w.gap);
      MeansMore(before, words);
      if w.gap == "" {
        assert words[1..] == [];
        ScanNothing(read);
      } else {
        TailIsProper(words);
        ScanWords(before + [arg], words[1..]);
      }
    }
  }

  lemma NothingBefore(arg: string)
    ensures "" + arg == arg
  {
  }

  lemma MeansMore(before: seq<string>, words: seq<Word>)
    requires words != []
    ensures before + [PiecesMean(words[0].pieces)] + Means(words[1..]) == before + Means(words)
    ensures |words| == 1 ==> before + Means(words) == before + [PiecesMean(words[0].pieces)]
  {
    assert Means(words) == [PiecesMean(words[0].pieces)] + Means(words[1..]);
  }

  lemma TailIsProper(words: seq<Word>)
    requires ProperWords(words) && words != []
    ensures ProperWords(words[1..])
  {
    hide ProperPiece, IsGap;
    assert forall i | 0 <= i < |words| - 1 :: words[1..][i] == words[i + 1];
  }

  /**
   * A command line is split as it is written: into its words, each the text of its runs and of what stands between
   * them, whatever white space and whatever of the other quote the runs hold.
   */
  lemma LinesMeanTheirWords(line: Line)
    requires Proper(line)
    ensures Split(Written(line)) == Ok(Means(line.words))
  {
    hide Scan, ProperWords, Finish;
    ScanJoins(START, line.lead, WordsWritten(line.words));
    ScanGap(START, line.lead);
    ScanWords([], line.words);
    assert [] + Means(line.words) == Means(line.words);
  }

  function AllBare(text: string): (chars: seq<Char>)
    ensures |chars| == |text| && forall i | 0 <= i < |text| :: chars[i] == Bare(text[i])
  {
    seq(|text|, i requires 0 <= i < |text| => Bare(text[i]))
  }

  lemma {:induction false} BareIsWritten(text: string)
    ensures CharsWritten(AllBare(text)) == text && CharsMean(AllBare(text)) == text
  {
    if text != "" {
      BareIsWritten(text[1..]);
      assert AllBare(text)[1..] == AllBare(text[1..]);
      assert text == [text[0]] + text[1..];
    }
  }

  /** Between two quotes that it does not hold, text without a backslash is one argument, white space and all. */
  lemma QuotedRunIsOneArgument(q: char, text: string)
    requires IsQuote(q) && q !in text && '\\' !in text
    ensures Split([q] + text + [q]) == Ok([text])
  {
    hide Scan;
    var word := Word([Run(q, AllBare(text))], "");
    var line := Line("", [word]);
    BareIsWritten(text);
    assert ProperPiece(word.pieces[0]);
    LinesMeanTheirWords(line);
    RunAlone(q, text);
  }

  lemma RunAlone(q: char, text: string)
    ensures var line := Line("", [Word([Run(q, AllBare(text))], "")]);
            Written(line) == [q] + text + [q] && Means(line.words) == [text]
  {
    BareIsWritten(text);
    var piece := Run(q, AllBare(text));
    assert PiecesWritten([piece]) == PieceWritten(piece) + PiecesWritten([]);
    assert PiecesMean([piece]) == text + PiecesMean([]);
    AppendNothing(text);
    var word := Word([piece], "");
    assert WordsWritten([word]) == PiecesWritten([piece]) + "" + WordsWritten([]);
    assert Means([word])[0] == text;
  }

  // ----- Nothing else is accepted -----

  /** What is left of the text still splits, with the scanner where it is. */
  predicate Goes(l: Lexer, text: string)
  {
    Finish(Scan(l, text)).Ok?
  }

  lemma GoesOn(l: Lexer, text: string)
    requires text != "" && Goes(l, text)
    ensures Goes(Advance(l, text[0]), text[1..])
  {
  }

  lemma GoesPastEscape(l: Lexer, text: string)
    requires text != "" && text[0] == '\\' && !l.escaped && Goes(l, text)
    ensures |text| >= 2 && Goes(Push(l, text[1]), text[2..])
  {
    GoesOn(l, text);
    assert |text| >= 2;
    GoesOn(l.(escaped := true), text[1..]);
    assert text[1..][1..] == text[2..];
  }

  lemma EscapeIsWritten(text: string)
    requires |text| >= 2 && text[0] == '\\'
    ensures text == ['\\', text[1]] + text[2..]
  {
  }

  /** The rest of a run, up to its quote. */
  lemma {:induction false} ReadRun(l: Lexer, q: char, text: string) returns (chars: seq<Char>, rest: string)
    requires IsQuote(q) && !l.escaped && l.quote == Some(q) && Goes(l, text)
    ensures text == CharsWritten(chars) + [q] + rest && ProperPiece(Run(q, chars))
    ensures exists m: Lexer :: !m.escaped && m.quote.None? && Goes(m, rest)
    decreases |text|
  {
    hide IsSpace, Scan, Goes;
    assert text != "" by { RunHasToEnd(l, text); }
    if text[0] == '\\' {
      GoesPastEscape(l, text);
      var more;
      more, rest := ReadRun(Push(l, text[1]), q, text[2..]);
      chars := [Behind(text[1])] + more;
      EscapeIsWritten(text);
      assert chars[1..] == more;
      Regroup(['\\', text[1]], CharsWritten(more), [q], rest);
    } else {
      GoesOn(l, text);
      AdvanceInRun(l, q, text[0]);
      HeadOf(text);
      if text[0] == q {
        chars, rest := [], text[1..];
        assert [] + [q] == [q];
      } else {
        var more;
        more, rest := ReadRun(Push(l, text[0]), q, text[1..]);
        chars := [Bare(text[0])] + more;
        assert chars[1..] == more;
        Regroup([text[0]], CharsWritten(more), [q], rest);
      }
    }
  }

  lemma RunHasToEnd(l: Lexer, text: string)
    requires l.quote.Some? && Goes(l, text)
    ensures text != ""
  {
  }

  lemma AdvanceInRun(l: Lexer, q: char, c: char)
    requires IsQuote(q) && !l.escaped && l.quote == Some(q) && c != '\\'
    ensures Advance(l, c) == if c == q then l.(quote := None) else Push(l, c)
  {
  }

  lemma HeadOf(text: string)
    requires text != ""
    ensures text == [text[0]] + text[1..]
  {
  }

  lemma Regroup(a: string, b: string, c: string, d: string)
    ensures a + (b + c + d) == a + b + c + d
  {
  }

  /** The rest of a word, up to white space or the end. */
  lemma {:induction false} ReadWord(l: Lexer, text: string) returns (pieces: seq<Piece>, rest: string)
    requires !l.escaped && l.quote.None? && Goes(l, text)
    ensures text == PiecesWritten(pieces) + rest && forall p | p in pieces :: ProperPiece(p)
    ensures rest == "" || IsSpace(rest[0])
    ensures text != "" && !IsSpace(text[0]) ==> pieces != []
    ensures exists m: Lexer :: !m.escaped && m.quote.None? && Goes(m, rest)
    decreases |text|
  {
    hide Scan, Goes, IsSpace;
    if text == "" || IsSpace(text[0]) {
      pieces, rest := [], text;
      assert "" + text == text;
    } else if text[0] == '\\' {
      GoesPastEscape(l, text);
      EscapeIsWritten(text);
      var more;
      more, rest := ReadWord(Push(l, text[1]), text[2..]);
      pieces := [Open([Behind(text[1])])] + more;
      OneOpen(Behind(text[1]), more, rest);
    } else if IsQuote(text[0]) {
      GoesOn(l, text);
      HeadOf(text);
      var q := text[0];
      AdvanceQuote(l, q);
      var chars, after := ReadRun(l.(quote := Some(q), hasCurrent := true), q, text[1..]);
      var m: Lexer :| !m.escaped && m.quote.None? && Goes(m, after);
      assert |after| < |text|;
      var more;
      more, rest := ReadWord(m, after);
      pieces := [Run(q, chars)] + more;
      OneRun(q, chars, more, rest);
    } else {
      GoesOn(l, text);
      HeadOf(text);
      AdvancePlain(l, text[0]);
      var more;
      more, rest := ReadWord(Push(l, text[0]), text[1..]);
      pieces := [Open([Bare(text[0])])] + more;
      OneOpen(Bare(text[0]), more, rest);
    }
  }

  lemma AdvancePlain(l: Lexer, c: char)
    requires !l.escaped && l.quote.None? && c != '\\' && !IsQuote(c) && !IsSpace(c)
    ensures Advance(l, c) == Push(l, c)
  {
  }

  lemma OneOpen(x: Char, more: seq<Piece>, rest: string)
    ensures PiecesWritten([Open([x])] + more) + rest ==
            (if x.Bare? then [x.c] else ['\\', x.c]) + (PiecesWritten(more) + rest)
  {
    hide CharsWritten, PiecesWritten;
    MorePieces(Open([x]), more);
    OneChar(x);
    AppendInParts(PieceWritten(Open([x])), PiecesWritten(more), rest);
  }

  lemma MorePieces(p: Piece, more: seq<Piece>)
    ensures PiecesWritten([p] + more) == PieceWritten(p) + PiecesWritten(more)
  {
    hide PieceWritten;
    assert ([p] + more)[1..] == more;
  }

  lemma OneChar(x: Char)
    ensures CharsWritten([x]) == if x.Bare? then [x.c] else ['\\', x.c]
  {
    AppendNothing(if x.Bare? then [x.c] else ['\\', x.c]);
  }

  lemma OneRun(q: char, chars: seq<Char>, more: seq<Piece>, rest: string)
    ensures PiecesWritten([Run(q, chars)] + more) + rest ==
            [q] + (CharsWritten(chars) + [q] + (PiecesWritten(more) + rest))
  {
    hide CharsWritten, PiecesWritten;
    MorePieces(Run(q, chars), more);
    AppendInParts(PieceWritten(Run(q, chars)), PiecesWritten(more), rest);
    Regroup([q], CharsWritten(chars), [q], PiecesWritten(more) + rest);
  }

  /** A text that splits is a line of proper words. */
  lemma {:induction false} ReadLine(l: Lexer, text: string) returns (line: Line)
    requires !l.escaped && l.quote.None? && Goes(l, text)
    ensures Proper(line) && Written(line) == text
    ensures text != "" && IsSpace(text[0]) ==> line.lead != ""
    decreases |text|
  {
    hide Scan, Goes, IsSpace, ProperPiece;
    if text == "" {
      line := Line("", []);
    } else if IsSpace(text[0]) {
      GoesOn(l, text);
      AdvanceSpace(l, text[0]);
      var more := ReadLine(Advance(l, text[0]), text[1..]);
      line := Line([text[0]] + more.lead, more.words);
      HeadOf(text);
      AppendInParts([text[0]], more.lead, WordsWritten(more.words));
    } else {
      var pieces, rest := ReadWord(l, text);
      var m: Lexer :| !m.escaped && m.quote.None? && Goes(m, rest);
      WrittenIsLonger(pieces);
      var more := ReadLine(m, rest);
      line := Line("", [Word(pieces, more.lead)] + more.words);
      OneMoreWord(pieces, more, rest);
    }
  }

  lemma AdvanceSpace(l: Lexer, c: char)
    requires !l.escaped && l.quote.None? && IsSpace(c)
    ensures !Advance(l, c).escaped && Advance(l, c).quote.None?
  {
  }

  lemma WrittenIsLonger(pieces: seq<Piece>)
    requires pieces != [] && forall p | p in pieces :: ProperPiece(p)
    ensures PiecesWritten(pieces) != ""
  {
    assert ProperPiece(pieces[0]);
  }

  lemma OneMoreWord(pieces: seq<Piece>, more: Line, rest: string)
    requires Proper(more) && Written(more) == rest && (rest != "" ==> more.lead != "")
    requires pieces != [] && forall p | p in pieces :: ProperPiece(p)
    ensures var line := Line("", [Word(pieces, more.lead)] + more.words);
            Proper(line) && Written(line) == PiecesWritten(pieces) + rest
  {
    hide ProperPiece, IsGap;
    var words := [Word(pieces, more.lead)] + more.words;
    assert words[1..] == more.words;
    assert more.words != [] ==> rest != "" by {
      if more.words != [] { WordIsWritten(more.words); }
    }
    AppendInParts(PiecesWritten(pieces), more.lead, WordsWritten(more.words));
    assert "" + WordsWritten(words) == WordsWritten(words);
    assert IsGap("") by { NoGap(); }
  }

  lemma NoGap()
    ensures IsGap("")
  {
  }

  lemma WordIsWritten(words: seq<Word>)
    requires words != [] && ProperWords(words)
    ensures WordsWritten(words) != ""
  {
    hide ProperPiece;
    WrittenIsLonger(words[0].pieces);
  }

  /**
   * Splitting is exact: a command line splits into an argv if and only if it is a line of words, in open characters,
   * escapes and quoted runs, that mean that argv. Everything else is refused.
   */
  lemma SplittingIsExact(text: string, argv: seq<string>)
    ensures Split(text) == Ok(argv) <==>
              exists line :: Proper(line) && Written(line) == text && Means(line.words) == argv
  {
    hide Scan, Proper;
    if Split(text) == Ok(argv) {
      var line := ReadLine(START, text);
      LinesMeanTheirWords(line);
    }
    forall line | Proper(line) && Written(line) == text ensures Split(text) == Ok(Means(line.words)) {
      LinesMeanTheirWords(line);
    }
  }

  // ----- Specifiers -----

  /** A character that stands for itself, or a per cent sign and the letter after it. */
  datatype Item = Lit(c: char) | Spec(letter: char)

  predicate ProperItem(x: Item)
  {
    if x.Lit? then x.c != '%' else x.letter in "nNHu%"
  }

  predicate ProperItems(items: seq<Item>)
  {
    forall x | x in items :: ProperItem(x)
  }

  function ItemsWritten(items: seq<Item>): string
  {
    if items == [] then ""
    else (if items[0].Lit? then [items[0].c] else ['%', items[0].letter]) + ItemsWritten(items[1..])
  }

  /** The unit's name, its full name, the host's name and the user; `%%` is a per cent sign. */
  function ItemMeans(x: Item, sp: Specifiers): string
  {
    if x.Lit? then [x.c]
    else if x.letter == 'n' then sp.name
    else if x.letter == 'N' then sp.fullName
    else if x.letter == 'H' then sp.hostname
    else if x.letter == 'u' then sp.user
    else "%"
  }

  function ItemsMean(items: seq<Item>, sp: Specifiers): string
  {
    if items == [] then "" else ItemMeans(items[0], sp) + ItemsMean(items[1..], sp)
  }

  lemma {:induction false} ItemsExpand(items: seq<Item>, sp: Specifiers)
    requires ProperItems(items)
    ensures Expand(ItemsWritten(items), sp) == Ok(ItemsMean(items, sp))
  {
    if items != [] {
      ItemsExpand(items[1..], sp);
      var text := ItemsWritten(items);
      assert ProperItem(items[0]);
      if items[0].Lit? {
        assert text[1..] == ItemsWritten(items[1..]);
      } else {
        assert text[2..] == ItemsWritten(items[1..]);
      }
    }
  }

  lemma {:induction false} ReadItems(text: string, sp: Specifiers) returns (items: seq<Item>)
    requires Expand(text, sp).Ok?
    ensures ProperItems(items) && ItemsWritten(items) == text
    decreases |text|
  {
    if text == "" {
      items := [];
    } else if text[0] != '%' {
      var more := ReadItems(text[1..], sp);
      items := [Lit(text[0])] + more;
      assert items[1..] == more;
      HeadOf(text);
    } else {
      var more := ReadItems(text[2..], sp);
      items := [Spec(text[1])] + more;
      assert items[1..] == more;
      assert text == ['%', text[1]] + text[2..];
    }
  }

  /**
   * Expansion is exact: known specifiers are replaced by what they stand for, and any other per cent sign is refused.
   */
  lemma ExpansionIsExact(text: string, sp: Specifiers, r: string)
    ensures Expand(text, sp) == Ok(r) <==>
              exists items :: ProperItems(items) && ItemsWritten(items) == text && ItemsMean(items, sp) == r
  {
    hide Expand, ProperItems;
    if Expand(text, sp) == Ok(r) {
      var items := ReadItems(text, sp);
      ItemsExpand(items, sp);
    }
    forall items | ProperItems(items) && ItemsWritten(items) == text
      ensures Expand(text, sp) == Ok(ItemsMean(items, sp))
    {
      ItemsExpand(items, sp);
    }
  }

  /** How a command line is to be read: first its specifiers, and then what they leave, as a line of words. */
  ghost predicate Reads(exec: string, items: seq<Item>, line: Line, sp: Specifiers, argv: seq<string>)
  {
    && ProperItems(items) && ItemsWritten(items) == exec
    && Proper(line) && Written(line) == ItemsMean(items, sp) && Means(line.words) == argv
  }

  /**
   * Parsing is exact: `exec` is accepted as an argv if and only if it reads as that argv, specifiers before quotes, and
   * its program is an absolute path.
   */
  lemma ParsingIsExact(exec: string, sp: Specifiers, argv: seq<string>)
    ensures Parse(exec, sp) == Ok(argv) <==>
              argv != [] && "/" <= argv[0] && exists items, line :: Reads(exec, items, line, sp, argv)
  {
    hide Expand, Split, ProperItems, Proper, Written, ItemsWritten, ItemsMean, Means;
    if Parse(exec, sp) == Ok(argv) {
      var text := Expand(exec, sp).value;
      ExpansionIsExact(exec, sp, text);
      SplittingIsExact(text, argv);
      var items :| ProperItems(items) && ItemsWritten(items) == exec && ItemsMean(items, sp) == text;
      var line :| Proper(line) && Written(line) == text && Means(line.words) == argv;
      assert Reads(exec, items, line, sp, argv);
    }
    if argv != [] && "/" <= argv[0] && exists items, line :: Reads(exec, items, line, sp, argv) {
      var items, line :| Reads(exec, items, line, sp, argv);
      ExpansionIsExact(exec, sp, Written(line));
      SplittingIsExact(Written(line), argv);
    }
  }

  // ----- Every argument can be written in each of the three ways -----

  datatype Style = Escaping | InQuotes(q: char)

  /** A character, behind a backslash where the style needs one. */
  function CharIn(style: Style, c: char): Char
  {
    if style.InQuotes? && c != style.q && c != '\\' then Bare(c) else Behind(c)
  }

  function CharsIn(style: Style, text: string): (chars: seq<Char>)
    ensures |chars| == |text| && forall i | 0 <= i < |text| :: chars[i] == CharIn(style, text[i])
  {
    seq(|text|, i requires 0 <= i < |text| => CharIn(style, text[i]))
  }

  /** One piece that means the text; nothing at all has to be quoted. */
  function Styled(style: Style, text: string): Piece
  {
    match style
    case InQuotes(q) => Run(q, CharsIn(style, text))
    case Escaping => if text == "" then Run('"', []) else Open(CharsIn(style, text))
  }

  lemma StyledMeans(style: Style, text: string)
    requires style.InQuotes? ==> IsQuote(style.q)
    ensures ProperPiece(Styled(style, text)) && PiecesMean([Styled(style, text)]) == text
  {
    var p := Styled(style, text);
    assert CharsMean(p.chars) == text;
    AppendNothing(text);
    assert PiecesMean([p]) == CharsMean(p.chars) + PiecesMean([]);
  }

  /** Each argument in a style of its own, one space between. */
  function StyledWords(argv: seq<string>, styles: seq<Style>): (words: seq<Word>)
    requires |styles| == |argv|
    ensures |words| == |argv|
    ensures forall i | 0 <= i < |argv| :: words[i] == Word([Styled(styles[i], argv[i])], " ")
  {
    seq(|argv|, i requires 0 <= i < |argv| => Word([Styled(styles[i], argv[i])], " "))
  }

  /** Writing every argument in a style of its own and parsing gives the arguments back. */
  lemma StylesRoundTrip(argv: seq<string>, styles: seq<Style>, sp: Specifiers)
    requires |styles| == |argv| && forall s | s in styles :: s.InQuotes? ==> IsQuote(s.q)
    ensures var line := Line("", StyledWords(argv, styles));
            && Split(Written(line)) == Ok(argv)
            && (argv != [] && "/" <= argv[0] ==> Parse(Doubled(Written(line)), sp) == Ok(argv))
  {
    hide Scan, Split, Expand, Styled;
    var line := Line("", StyledWords(argv, styles));
    forall i | 0 <= i < |argv|
      ensures ProperPiece(Styled(styles[i], argv[i])) && PiecesMean([Styled(styles[i], argv[i])]) == argv[i]
    {
      assert styles[i] in styles;
      StyledMeans(styles[i], argv[i]);
    }
    SpaceIsGap();
    assert Means(line.words) == argv;
    LinesMeanTheirWords(line);
    ExpandUndoesDoubling(Written(line), sp);
  }

  lemma SpaceIsGap()
    ensures IsGap(" ") && IsGap("")
  {
  }
}
