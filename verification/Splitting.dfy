/** Reads into lines: what a pipe hands over, cut at newlines and bounded. */
module Splitting {
  import opened Names
  import opened Wrappers

  /** A byte is a character here; nothing depends on there being 256 of them. */
  type Bytes = seq<char>

  const NEWLINE := '\n'
  const MAX_LINE: nat := 16 * 1024

  /** The most one read takes from a pipe. */
  const READ_SIZE: nat := 16 * 1024

  // ----- The newline split, one byte at a time -----

  datatype Pieces = Pieces(lines: seq<Bytes>, tail: Bytes)

  /** Every line of a text and what follows the last newline. */
  function Split(text: Bytes): (p: Pieces)
    ensures NEWLINE !in p.tail && forall line | line in p.lines :: NEWLINE !in line
  {
    if text == [] then Pieces([], [])
    else
      var p := Split(text[..|text| - 1]);
      var b := text[|text| - 1];
      if b == NEWLINE then Pieces(p.lines + [p.tail], []) else Pieces(p.lines, p.tail + [b])
  }

  function Flatten(pieces: seq<Bytes>): Bytes
  {
    if pieces == [] then [] else Flatten(pieces[..|pieces| - 1]) + pieces[|pieces| - 1]
  }

  /** A text minus its newlines. */
  function Strip(text: Bytes): Bytes
  {
    if text == [] then []
    else Strip(text[..|text| - 1]) + (if text[|text| - 1] == NEWLINE then [] else [text[|text| - 1]])
  }

  lemma SplitOneMore(text: Bytes, b: char)
    ensures var p := Split(text);
            Split(text + [b]) == if b == NEWLINE then Pieces(p.lines + [p.tail], []) else Pieces(p.lines, p.tail + [b])
  {
    assert (text + [b])[..|text|] == text;
  }

  lemma {:induction false} SplitPlain(text: Bytes, more: Bytes)
    requires NEWLINE !in more
    ensures Split(text + more) == Pieces(Split(text).lines, Split(text).tail + more)
  {
    if more == [] {
      AppendNothing(text);
      AppendNothing(Split(text).tail);
    } else {
      var n := |more| - 1;
      SplitPlain(text, more[..n]);
      SplitOneMore(text + more[..n], more[n]);
      LastOff(more);
      AppendInParts(text, more[..n], [more[n]]);
      AppendInParts(Split(text).tail, more[..n], [more[n]]);
    }
  }

  lemma FlattenOneMore(pieces: seq<Bytes>, p: Bytes)
    ensures Flatten(pieces + [p]) == Flatten(pieces) + p
  {
    assert (pieces + [p])[..|pieces|] == pieces;
  }

  lemma {:induction false} FlattenJoins(a: seq<Bytes>, b: seq<Bytes>)
    ensures Flatten(a + b) == Flatten(a) + Flatten(b)
  {
    if b == [] {
      AppendNothing(a);
      AppendNothing(Flatten(a));
    } else {
      var n := |b| - 1;
      FlattenJoins(a, b[..n]);
      FlattenOneMore(a + b[..n], b[n]);
      LastOff(b);
      AppendInParts(a, b[..n], [b[n]]);
      AppendInParts(Flatten(a), Flatten(b[..n]), b[n]);
    }
  }

  lemma {:induction false} StripJoins(a: Bytes, b: Bytes)
    ensures Strip(a + b) == Strip(a) + Strip(b)
  {
    if b == [] {
      assert a + b == a;
    } else {
      var n := |b| - 1;
      StripJoins(a, b[..n]);
      assert (a + b)[..|a + b| - 1] == a + b[..n];
    }
  }

  lemma {:induction false} StripPlain(text: Bytes)
    requires NEWLINE !in text
    ensures Strip(text) == text
  {
    if text != [] {
      StripPlain(text[..|text| - 1]);
    }
  }

  // ----- One read -----

  function IndexOfNewline(text: Bytes): (at: nat)
    ensures at <= |text| && forall i | 0 <= i < at :: text[i] != NEWLINE
    ensures at < |text| ==> text[at] == NEWLINE
  {
    if text == [] || text[0] == NEWLINE then 0
    else IndexOfNewline(text[1..]) + 1
  }

  /** The lines a read completes, the first of them beginning with what was held, and what is held after it. */
  function Cut(held: Bytes, rest: Bytes): Pieces
    decreases |rest|
  {
    var at := IndexOfNewline(rest);
    if at == |rest| then Pieces([], held + rest)
    else
      var p := Cut([], rest[at + 1..]);
      Pieces([held + rest[..at]] + p.lines, p.tail)
  }

  /** What is held past the bound is let go as a record of its own. */
  function Bounded(p: Pieces): Pieces
  {
    if |p.tail| >= MAX_LINE then Pieces(p.lines + [p.tail], []) else p
  }

  function Push(partial: Bytes, chunk: Bytes): Pieces
  {
    Bounded(Cut(partial, chunk))
  }

  lemma CutUnfolds(held: Bytes, line: Bytes, more: Bytes)
    requires NEWLINE !in line
    ensures Cut(held, line) == Pieces([], held + line)
    ensures Cut(held, line + [NEWLINE] + more) == Pieces([held + line] + Cut([], more).lines, Cut([], more).tail)
  {
    var text := line + [NEWLINE] + more;
    FirstNewline(line, more);
    assert text[..|line|] == line && text[|line| + 1..] == more;
    assert IndexOfNewline(line) == |line|;
  }

  lemma FirstNewline(line: Bytes, more: Bytes)
    requires NEWLINE !in line
    ensures IndexOfNewline(line + [NEWLINE] + more) == |line|
  {
    var text := line + [NEWLINE] + more;
    var at := IndexOfNewline(text);
    assert text[|line|] == NEWLINE;
    assert forall i | 0 <= i < |line| :: text[i] == line[i];
  }

  /** Every read is either all line, or a line, its newline and the rest of the read. */
  lemma ReadParts(rest: Bytes) returns (line: Bytes, more: Bytes)
    ensures NEWLINE !in line
    ensures line == rest || (rest == line + [NEWLINE] + more && |more| < |rest|)
  {
    var at := IndexOfNewline(rest);
    line, more := rest[..at], if at == |rest| then [] else rest[at + 1..];
  }

  lemma CutStep(held: Bytes, rest: Bytes)
    ensures var at := IndexOfNewline(rest);
            if at == |rest| then Cut(held, rest) == Pieces([], held + rest)
            else Cut(held, rest) ==
                 Pieces([held + rest[..at]] + Cut([], rest[at + 1..]).lines, Cut([], rest[at + 1..]).tail)
  {
    hide IndexOfNewline;
  }

  /** Cutting a read at its newlines carries the newline split of everything before it on. */
  lemma {:induction false} CutExtendsSplit(text: Bytes, rest: Bytes)
    ensures var p, q := Split(text), Cut(Split(text).tail, rest);
            Split(text + rest) == Pieces(p.lines + q.lines, q.tail)
    decreases |rest|
  {
    hide Split, Cut;
    var p := Split(text);
    var line, more := ReadParts(rest);
    CutUnfolds(p.tail, line, more);
    SplitPlain(text, line);
    if line != rest {
      SplitOneMore(text + line, NEWLINE);
      CutExtendsSplit(text + line + [NEWLINE], more);
      assert text + rest == text + line + [NEWLINE] + more;
      var q := Cut([], more);
      assert p.lines + [p.tail + line] + q.lines == p.lines + ([p.tail + line] + q.lines);
    }
  }

  /** The splitter object: a buffer appended to and cleared. */
  class Splitter {
    var partial: Bytes

    constructor ()
      ensures partial == []
    {
      partial := [];
    }

    /** Feed one read; `emitted` are the records it completes. */
    method Feed(chunk: Bytes) returns (emitted: seq<Bytes>)
      modifies this
      ensures Pieces(emitted, partial) == Push(old(partial), chunk)
    {
      hide Cut, IndexOfNewline;
      emitted := [];
      var rest := chunk;
      var at := IndexOfNewline(rest);
      ghost var whole := Cut(partial, chunk);
      AppendNothing(whole.lines);
      while at < |rest|
        invariant at == IndexOfNewline(rest)
        invariant whole == Pieces(emitted + Cut(partial, rest).lines, Cut(partial, rest).tail)
        decreases |rest|
      {
        var line := rest[..at];
        CutStep(partial, rest);
        AppendInParts(emitted, [partial + line], Cut([], rest[at + 1..]).lines);
        if partial == [] {
          AppendNothing(line);
          emitted := emitted + [line];
        } else {
          partial := partial + line;
          emitted := emitted + [partial];
          partial := [];
        }
        rest := rest[at + 1..];
        at := IndexOfNewline(rest);
      }
      CutStep(partial, rest);
      AppendNothing(emitted);
      partial := partial + rest;
      if |partial| >= MAX_LINE {
        emitted := emitted + [partial];
        partial := [];
      }
    }

    /** What is left when the writer is gone for good. */
    method Flush() returns (last: Option<Bytes>)
      modifies this
      ensures partial == []
      ensures last == if old(partial) == [] then None else Some(old(partial))
    {
      if partial == [] {
        return None;
      }
      last := Some(partial);
      partial := [];
    }
  }

  // ----- A whole stream -----

  /** Every record emitted so far, and what is held. */
  function Stream(chunks: seq<Bytes>): Pieces
  {
    if chunks == [] then Pieces([], [])
    else
      var p := Stream(chunks[..|chunks| - 1]);
      var q := Push(p.tail, chunks[|chunks| - 1]);
      Pieces(p.lines + q.lines, q.tail)
  }

  /** What is held never contains a newline and stays below the bound. */
  lemma {:induction false} HeldIsBounded(chunks: seq<Bytes>)
    ensures NEWLINE !in Stream(chunks).tail && |Stream(chunks).tail| < MAX_LINE
  {
    if chunks != [] {
      var n := |chunks| - 1;
      HeldIsBounded(chunks[..n]);
      CutTailIsPlain(Stream(chunks[..n]).tail, chunks[n]);
    }
  }

  lemma {:induction false} CutTailIsPlain(held: Bytes, rest: Bytes)
    requires NEWLINE !in held
    ensures NEWLINE !in Cut(held, rest).tail
    decreases |rest|
  {
    hide Cut;
    var line, more := ReadParts(rest);
    CutUnfolds(held, line, more);
    if line != rest {
      CutTailIsPlain([], more);
    }
  }

  lemma {:induction false} CutIsBounded(held: Bytes, rest: Bytes)
    requires NEWLINE !in held
    ensures forall line | line in Cut(held, rest).lines :: NEWLINE !in line && |line| <= |held| + |rest|
    ensures |Cut(held, rest).tail| <= |held| + |rest|
    decreases |rest|
  {
    hide Cut;
    var line, more := ReadParts(rest);
    CutUnfolds(held, line, more);
    if line != rest {
      CutIsBounded([], more);
    }
  }

  /** No line that comes out of reads of at most one buffer holds a newline or reaches the bound plus that buffer. */
  lemma {:induction false} EmittedAreBounded(chunks: seq<Bytes>)
    requires forall i | 0 <= i < |chunks| :: |chunks[i]| <= READ_SIZE
    ensures forall line | line in Stream(chunks).lines :: NEWLINE !in line && |line| < MAX_LINE + READ_SIZE
  {
    hide Cut;
    if chunks != [] {
      var n := |chunks| - 1;
      EmittedAreBounded(chunks[..n]);
      HeldIsBounded(chunks[..n]);
      CutIsBounded(Stream(chunks[..n]).tail, chunks[n]);
      CutTailIsPlain(Stream(chunks[..n]).tail, chunks[n]);
    }
  }

  lemma StripLine(line: Bytes, more: Bytes)
    requires NEWLINE !in line
    ensures Strip(line + [NEWLINE] + more) == line + Strip(more)
  {
    StripPlain(line);
    StripJoins(line, [NEWLINE]);
    StripJoins(line + [NEWLINE], more);
    assert [NEWLINE][..0] == [];
    assert Strip([NEWLINE]) == [];
    assert line + [] == line;
  }

  lemma FlattenFrom(first: Bytes, pieces: seq<Bytes>)
    ensures Flatten([first] + pieces) == first + Flatten(pieces)
  {
    FlattenJoins([first], pieces);
    FlattenOneMore([], first);
    assert [] + [first] == [first];
    assert Flatten([]) + first == first;
  }

  lemma {:induction false} CutConserves(held: Bytes, rest: Bytes)
    requires NEWLINE !in held
    ensures Flatten(Cut(held, rest).lines) + Cut(held, rest).tail == held + Strip(rest)
    decreases |rest|
  {
    hide Cut, Strip, Flatten;
    var line, more := ReadParts(rest);
    CutUnfolds(held, line, more);
    if line == rest {
      StripPlain(rest);
      NothingFlattens();
      assert [] + (held + rest) == held + rest;
    } else {
      var q := Cut([], more);
      CutConserves([], more);
      StripLine(line, more);
      FlattenFrom(held + line, q.lines);
      calc {
        held + line + Flatten(q.lines) + q.tail;
        held + line + (Flatten(q.lines) + q.tail);
        held + line + ([] + Strip(more));
        held + (line + Strip(more));
      }
    }
  }

  lemma NothingFlattens()
    ensures Flatten([]) == []
  {
  }

  /**
   * No byte is lost, invented or moved: the records and what is held are the stream minus its newlines, for
   * every chunking.
   */
  lemma {:induction false} StreamConserves(chunks: seq<Bytes>)
    ensures Flatten(Stream(chunks).lines) + Stream(chunks).tail == Strip(Flatten(chunks))
  {
    if chunks != [] {
      var n := |chunks| - 1;
      StreamConserves(chunks[..n]);
      HeldIsBounded(chunks[..n]);
      PushConserves(Stream(chunks[..n]), chunks[n]);
      StripJoins(Flatten(chunks[..n]), chunks[n]);
    }
  }

  lemma PushConserves(p: Pieces, chunk: Bytes)
    requires NEWLINE !in p.tail
    ensures var q := Push(p.tail, chunk);
            Flatten(p.lines + q.lines) + q.tail == Flatten(p.lines) + p.tail + Strip(chunk)
  {
    hide Cut, Strip, Flatten, Bounded;
    var q := Cut(p.tail, chunk);
    CutConserves(p.tail, chunk);
    BoundedConserves(q);
    FlattenJoins(p.lines, Bounded(q).lines);
    calc {
      Flatten(p.lines) + Flatten(Bounded(q).lines) + Bounded(q).tail;
      Flatten(p.lines) + (Flatten(Bounded(q).lines) + Bounded(q).tail);
      Flatten(p.lines) + (p.tail + Strip(chunk));
      Flatten(p.lines) + p.tail + Strip(chunk);
    }
  }

  lemma BoundedConserves(p: Pieces)
    ensures Flatten(Bounded(p).lines) + Bounded(p).tail == Flatten(p.lines) + p.tail
  {
    FlattenOneMore(p.lines, p.tail);
    assert Flatten(p.lines + [p.tail]) + [] == Flatten(p.lines + [p.tail]);
  }

  /** Every line of the text, its unfinished last one included, is below the bound. */
  ghost predicate Short(text: Bytes)
  {
    |Split(text).tail| < MAX_LINE && forall line | line in Split(text).lines :: |line| < MAX_LINE
  }

  lemma {:induction false} ShortBefore(a: Bytes, b: Bytes)
    requires Short(a + b)
    ensures Short(a)
  {
    if b == [] {
      assert a + b == a;
    } else {
      var n := |b| - 1;
      var p := Split(a + b[..n]);
      SplitOneMore(a + b[..n], b[n]);
      assert a + b == a + b[..n] + [b[n]];
      if b[n] == NEWLINE {
        assert p.tail in p.lines + [p.tail];
        assert forall line | line in p.lines :: line in p.lines + [p.tail];
      }
      ShortBefore(a, b[..n]);
    }
  }

  /** When every line is below the bound, the records are exactly the newline split, however the stream was cut. */
  lemma {:induction false} ChunkingDoesNotMatter(chunks: seq<Bytes>)
    requires Short(Flatten(chunks))
    ensures Stream(chunks) == Split(Flatten(chunks))
  {
    if chunks != [] {
      var n := |chunks| - 1;
      var before := Flatten(chunks[..n]);
      ShortBefore(before, chunks[n]);
      ChunkingDoesNotMatter(chunks[..n]);
      CutExtendsSplit(before, chunks[n]);
    }
  }

  /**
   * At the bound the cut does matter: the same line is one record when its last byte and its newline come together,
   * and two when its newline comes alone. No read here is larger than one read can be.
   */
  lemma LongLinesAreCutByReads(line: Bytes, last: char)
    requires |line| == MAX_LINE - 1 && NEWLINE !in line && last != NEWLINE
    ensures Stream([line, [last, NEWLINE]]) == Pieces([line + [last]], [])
    ensures Stream([line + [last], [NEWLINE]]) == Pieces([line + [last], []], [])
  {
    hide Push, Stream;
    PushLine(line, last);
    NextRead([], line);
    NextRead([line], [last, NEWLINE]);
    NextRead([], line + [last]);
    NextRead([line + [last]], [NEWLINE]);
    AppendNothing([line]);
    AppendNothing([line + [last]]);
    assert [line] + [[last, NEWLINE]] == [line, [last, NEWLINE]];
    assert [line + [last]] + [[NEWLINE]] == [line + [last], [NEWLINE]];
    assert [line + [last]] + [[]] == [line + [last], []];
  }

  lemma PushLine(line: Bytes, last: char)
    requires |line| == MAX_LINE - 1 && NEWLINE !in line && last != NEWLINE
    ensures Push([], line) == Pieces([], line)
    ensures Push(line, [last, NEWLINE]) == Pieces([line + [last]], [])
    ensures Push([], line + [last]) == Pieces([line + [last]], [])
    ensures Push([], [NEWLINE]) == Pieces([[]], [])
  {
    hide Cut;
    AppendNothing(line);
    AppendNothing(line + [last]);
    AppendNothing([line + [last]]);
    CutUnfolds([], line, []);
    CutUnfolds(line, [last], []);
    assert [last] + [NEWLINE] + [] == [last, NEWLINE];
    CutUnfolds([], line + [last], []);
    CutUnfolds([], [], []);
    assert [] + [NEWLINE] + [] == [NEWLINE];
  }

  lemma NextRead(chunks: seq<Bytes>, chunk: Bytes)
    ensures var p, q := Stream(chunks), Push(Stream(chunks).tail, chunk);
            Stream(chunks + [chunk]) == Pieces(p.lines + q.lines, q.tail)
    ensures Stream([]) == Pieces([], [])
  {
    assert (chunks + [chunk])[..|chunks|] == chunks;
  }

  // ----- When exactly the cut does not matter -----

  /** A stream read one byte at a time. */
  function Singles(text: Bytes): (chunks: seq<Bytes>)
    ensures |chunks| == |text| && forall i | 0 <= i < |chunks| :: |chunks[i]| == 1
  {
    if text == [] then [] else Singles(text[..|text| - 1]) + [[text[|text| - 1]]]
  }

  lemma {:induction false} SinglesFlatten(text: Bytes)
    ensures Flatten(Singles(text)) == text
  {
    if text != [] {
      SinglesFlatten(text[..|text| - 1]);
      FlattenOneMore(Singles(text[..|text| - 1]), [text[|text| - 1]]);
      LastOff(text);
    }
  }

  lemma PushOne(held: Bytes, b: char)
    requires NEWLINE !in held
    ensures Push(held, [b]) ==
            if b == NEWLINE then Pieces([held], [])
            else if |held| + 1 >= MAX_LINE then Pieces([held + [b]], []) else Pieces([], held + [b])
  {
    hide Cut;
    if b == NEWLINE {
      CutUnfolds(held, [], []);
      AppendNothing(held);
      AppendNothing([held]);
      assert [] + [NEWLINE] + [] == [NEWLINE];
      CutUnfolds([], [], []);
    } else {
      CutUnfolds(held, [b], []);
      AppendNothing([held + [b]]);
    }
  }

  /** Read byte by byte, a text whose lines are not all below the bound comes out in more records than it has lines. */
  lemma {:induction false} SinglesTell(text: Bytes)
    ensures var p, q := Split(text), Stream(Singles(text));
            |q.lines| >= |p.lines| && (!Short(text) ==> |q.lines| > |p.lines|)
  {
    hide Push, Singles;
    if text == [] {
      SinglesOfNothing();
    } else {
      var n := |text| - 1;
      var before, b := text[..n], text[n];
      SinglesTell(before);
      LastOff(text);
      SplitOneMore(before, b);
      SinglesOneMore(before, b);
      NextRead(Singles(before), [b]);
      HeldIsBounded(Singles(before));
      PushOne(Stream(Singles(before)).tail, b);
      if Short(before) {
        SinglesFlatten(before);
        ChunkingDoesNotMatter(Singles(before));
        ShortOneMore(before, b);
      } else if Short(text) {
        ShortBefore(before, [b]);
      }
    }
  }

  lemma SinglesOfNothing()
    ensures Singles([]) == [] && Short([])
  {
  }

  lemma SinglesOneMore(text: Bytes, b: char)
    ensures Singles(text + [b]) == Singles(text) + [[b]]
  {
    assert (text + [b])[..|text|] == text;
  }

  lemma ShortOneMore(text: Bytes, b: char)
    requires Short(text)
    ensures Short(text + [b]) <==> b == NEWLINE || |Split(text).tail| + 1 < MAX_LINE
  {
    hide Split;
    SplitOneMore(text, b);
  }

  ghost predicate CutOf(chunks: seq<Bytes>, text: Bytes)
  {
    Flatten(chunks) == text && forall i | 0 <= i < |chunks| :: |chunks[i]| <= READ_SIZE
  }

  /** The records are the newline split however the reads fall, exactly when every line is below the bound. */
  lemma CutMattersExactlyForLongLines(text: Bytes)
    ensures (forall chunks | CutOf(chunks, text) :: Stream(chunks) == Split(text)) <==> Short(text)
  {
    hide Stream, Split, Flatten, Short;
    if Short(text) {
      forall chunks | CutOf(chunks, text) ensures Stream(chunks) == Split(text) {
        ChunkingDoesNotMatter(chunks);
      }
    } else {
      SinglesFlatten(text);
      SinglesTell(text);
      assert CutOf(Singles(text), text);
    }
  }
}
