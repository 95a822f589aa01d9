/** The shipper over a whole run: pipes announced and read in any order, and what each of them leaves in the log. */
module LogPipeline {
  import opened Names
  import opened Splitting
  import opened LogFiles
  import opened LogStore
  import opened LogRuns

  /** What the shipper is woken for: a service's new pipe, one read from a pipe it holds, or the end of its socket. */
  datatype Happening = Accepted(unit: string) | Took(pipe: nat, read: Read) | SocketClosed

  /** Pipes are numbered as they were announced; every start of a service announces one. */
  datatype Pipe = Pipe(unit: string, held: Bytes, open: bool)

  /** A line as it was written: the pipe and unit it came from, and its stamp. */
  datatype Line = Line(pipe: nat, unit: string, at: Timestamp, text: Bytes)

  /** `over` once the socket has closed: the shipper writes out what it holds and returns. */
  datatype Shipment = Shipment(pipes: seq<Pipe>, lines: seq<Line>, over: bool)

  function Tag(pipe: nat, unit: string, texts: seq<Bytes>, clock: nat -> Timestamp, from: nat): (lines: seq<Line>)
    ensures |lines| == |texts|
  {
    if texts == [] then []
    else
      var n := |texts| - 1;
      Tag(pipe, unit, texts[..n], clock, from) + [Line(pipe, unit, clock(from + n), texts[n])]
  }

  /** A read from a pipe that is gone cannot happen and changes nothing. */
  function Taken(s: Shipment, i: nat, read: Read, clock: nat -> Timestamp): Shipment
  {
    if i >= |s.pipes| || !s.pipes[i].open then s
    else
      var p := s.pipes[i];
      var (texts, held) := Drained(p.held, read);
      s.(pipes := s.pipes[i := Pipe(p.unit, held, read.Data? || read.Retry?)],
         lines := s.lines + Tag(i, p.unit, texts, clock, |s.lines|))
  }

  /** What the first `n` pipes still hold is written, as it is when a writer is gone. */
  function Flushed(s: Shipment, n: nat, clock: nat -> Timestamp): Shipment
  {
    if n == 0 then s else Taken(Flushed(s, n - 1, clock), n - 1, Closed, clock)
  }

  function After(s: Shipment, h: Happening, clock: nat -> Timestamp): Shipment
  {
    if s.over then s
    else
      match h
      case Accepted(unit) => s.(pipes := s.pipes + [Pipe(unit, [], true)])
      case Took(i, read) => Taken(s, i, read, clock)
      case SocketClosed => Flushed(s, |s.pipes|, clock).(over := true)
  }

  function Ran(happenings: seq<Happening>, clock: nat -> Timestamp): Shipment
  {
    if happenings == [] then Shipment([], [], false)
    else After(Ran(happenings[..|happenings| - 1], clock), happenings[|happenings| - 1], clock)
  }

  // ----- Views of what was written -----

  function FromPipe(lines: seq<Line>, pipe: nat): seq<Bytes>
  {
    if lines == [] then []
    else
      var last := lines[|lines| - 1];
      FromPipe(lines[..|lines| - 1], pipe) + if last.pipe == pipe then [last.text] else []
  }

  function OfUnit(lines: seq<Line>, unit: string): seq<Line>
  {
    if lines == [] then []
    else
      var last := lines[|lines| - 1];
      OfUnit(lines[..|lines| - 1], unit) + if last.unit == unit then [last] else []
  }

  function EntriesOf(lines: seq<Line>): (r: seq<Entry>)
    ensures |r| == |lines|
  {
    if lines == [] then []
    else
      var last := lines[|lines| - 1];
      EntriesOf(lines[..|lines| - 1]) + [Entry(last.unit, Record(last.at, last.text))]
  }

  function Records(lines: seq<Line>): seq<Bytes>
  {
    if lines == [] then []
    else
      var last := lines[|lines| - 1];
      Records(lines[..|lines| - 1]) + [Record(last.at, last.text)]
  }

  function Texts(lines: seq<Line>): seq<Bytes>
  {
    if lines == [] then [] else Texts(lines[..|lines| - 1]) + [lines[|lines| - 1].text]
  }

  lemma OneMoreLine(lines: seq<Line>, l: Line, pipe: nat, unit: string)
    ensures FromPipe(lines + [l], pipe) == FromPipe(lines, pipe) + if l.pipe == pipe then [l.text] else []
    ensures OfUnit(lines + [l], unit) == OfUnit(lines, unit) + if l.unit == unit then [l] else []
    ensures EntriesOf(lines + [l]) == EntriesOf(lines) + [Entry(l.unit, Record(l.at, l.text))]
    ensures Records(lines + [l]) == Records(lines) + [Record(l.at, l.text)]
    ensures Texts(lines + [l]) == Texts(lines) + [l.text]
  {
    assert (lines + [l])[..|lines|] == lines;
  }

  /** The lines of a unit, seen pipe by pipe, are the pipe's own. */
  lemma {:induction false} UnitKeepsPipe(lines: seq<Line>, unit: string, pipe: nat)
    requires forall i | 0 <= i < |lines| && lines[i].pipe == pipe :: lines[i].unit == unit
    ensures FromPipe(OfUnit(lines, unit), pipe) == FromPipe(lines, pipe)
  {
    if lines != [] {
      var n := |lines| - 1;
      UnitKeepsPipe(lines[..n], unit, pipe);
      hide Texts, EntriesOf, Records, FromPipe, OfUnit;
      LastOff(lines);
      OneMoreLine(lines[..n], lines[n], pipe, unit);
      OneMoreLine(OfUnit(lines[..n], unit), lines[n], pipe, unit);
      AppendNothing(OfUnit(lines[..n], unit));
      AppendNothing(FromPipe(lines[..n], pipe));
    }
  }

  /** A unit with one pipe says what that pipe says. */
  lemma {:induction false} OnePipeSaysAll(lines: seq<Line>, unit: string, pipe: nat)
    requires forall i | 0 <= i < |lines| :: lines[i].unit == unit <==> lines[i].pipe == pipe
    ensures Texts(OfUnit(lines, unit)) == FromPipe(lines, pipe)
  {
    if lines != [] {
      var n := |lines| - 1;
      OnePipeSaysAll(lines[..n], unit, pipe);
      hide Texts, EntriesOf, Records, FromPipe, OfUnit;
      LastOff(lines);
      OneMoreLine(lines[..n], lines[n], pipe, unit);
      OneMoreLine(OfUnit(lines[..n], unit), lines[n], pipe, unit);
      AppendNothing(OfUnit(lines[..n], unit));
      AppendNothing(FromPipe(lines[..n], pipe));
    }
  }

  lemma {:induction false} UnitRecords(lines: seq<Line>, unit: string)
    ensures Only(EntriesOf(lines), unit) == Records(OfUnit(lines, unit)) && Written(EntriesOf(lines))
  {
    hide Record;
    if lines != [] {
      var n := |lines| - 1;
      var last := lines[n];
      UnitRecords(lines[..n], unit);
      OneMoreLine(OfUnit(lines[..n], unit), last, 0, unit);
      OneMoreEntry(EntriesOf(lines[..n]), Entry(last.unit, Record(last.at, last.text)), unit);
      AppendNothing(OfUnit(lines[..n], unit));
      AppendNothing(Records(OfUnit(lines[..n], unit)));
      RecordIsNotEmpty(last.at, last.text);
    }
  }

  lemma OneMoreEntry(entries: seq<Entry>, e: Entry, unit: string)
    ensures Only(entries + [e], unit) == Only(entries, unit) + if e.unit == unit then [e.record] else []
  {
    assert (entries + [e])[..|entries|] == entries;
  }

  lemma RecordIsNotEmpty(at: Timestamp, text: Bytes)
    ensures Record(at, text) != []
  {
    hide Decimal, Six;
    assert Record(at, text)[|Record(at, text)| - 1] == NEWLINE;
  }

  lemma {:induction false} TaggedLines(
      lines: seq<Line>, pipe: nat, unit: string, texts: seq<Bytes>, clock: nat -> Timestamp, from: nat, other: nat)
    ensures FromPipe(lines + Tag(pipe, unit, texts, clock, from), other) ==
            FromPipe(lines, other) + if other == pipe then texts else []
    decreases |texts|
  {
    if texts == [] {
      AppendNothing(lines);
      AppendNothing(FromPipe(lines, other));
    } else {
      var n := |texts| - 1;
      var l := Line(pipe, unit, clock(from + n), texts[n]);
      var front := Tag(pipe, unit, texts[..n], clock, from);
      TaggedLines(lines, pipe, unit, texts[..n], clock, from, other);
      assert Tag(pipe, unit, texts, clock, from) == front + [l];
      hide Tag, Texts, EntriesOf, Records, FromPipe, OfUnit;
      AppendInParts(lines, front, [l]);
      OneMoreLine(lines + front, l, other, unit);
      LastOff(texts);
      AppendInParts(FromPipe(lines, other), texts[..n], [texts[n]]);
      AppendNothing(FromPipe(lines, other));
    }
  }

  // ----- One pipe's own history -----

  /** What a happening reads from one pipe; the end of the socket counts as the end of every pipe still held. */
  function Gives(s: Shipment, h: Happening, pipe: nat): seq<Read>
  {
    if s.over || pipe >= |s.pipes| || !s.pipes[pipe].open then []
    else
      match h
      case Accepted(_) => []
      case Took(i, read) => if i == pipe then [read] else []
      case SocketClosed => [Closed]
  }

  /** What was read from one pipe while it was held. */
  function OwnReads(happenings: seq<Happening>, clock: nat -> Timestamp, pipe: nat): seq<Read>
  {
    if happenings == [] then []
    else
      var before, last := happenings[..|happenings| - 1], happenings[|happenings| - 1];
      OwnReads(before, clock, pipe) + Gives(Ran(before, clock), last, pipe)
  }

  predicate Ongoing(taken: seq<Read>)
  {
    forall r | r in taken :: r.Data? || r.Retry?
  }

  predicate Ending(r: Read)
  {
    r.Closed? || r.Broken?
  }

  /** A pipe that is held has only been read; one that is gone ended with its writer, the socket or an error. */
  predicate OverProperly(taken: seq<Read>, open: bool)
  {
    if open then Ongoing(taken)
    else taken != [] && Ending(taken[|taken| - 1]) && Ongoing(taken[..|taken| - 1])
  }

  /** What the shipper knows of a pipe is what its own reads make of it. */
  ghost predicate Faithful(s: Shipment, pipe: nat, taken: seq<Read>)
  {
    if pipe >= |s.pipes| then taken == [] && FromPipe(s.lines, pipe) == []
    else
      && FromPipe(s.lines, pipe) == DrainedAll(taken).lines && s.pipes[pipe].held == DrainedAll(taken).tail
      && OverProperly(taken, s.pipes[pipe].open)
  }

  lemma OneMoreRead(taken: seq<Read>, r: Read)
    ensures var p := DrainedAll(taken);
            DrainedAll(taken + [r]) == Pieces(p.lines + Drained(p.tail, r).0, Drained(p.tail, r).1)
    ensures Ongoing(taken) ==> OverProperly(taken + [r], r.Data? || r.Retry?)
  {
    assert (taken + [r])[..|taken|] == taken;
  }

  lemma TakenIsFaithful(s: Shipment, i: nat, read: Read, clock: nat -> Timestamp, pipe: nat, taken: seq<Read>)
    requires Faithful(s, pipe, taken)
    ensures Faithful(Taken(s, i, read, clock), pipe,
                     taken + if i == pipe && pipe < |s.pipes| && s.pipes[pipe].open then [read] else [])
  {
    hide DrainedAll, FromPipe, Tag, Drained;
    AppendNothing(taken);
    if i < |s.pipes| && s.pipes[i].open {
      var p := s.pipes[i];
      var (texts, held) := Drained(p.held, read);
      TaggedLines(s.lines, i, p.unit, texts, clock, |s.lines|, pipe);
      AppendNothing(FromPipe(s.lines, pipe));
      if i == pipe {
        OneMoreRead(taken, read);
      }
    }
  }

  /** Flushing closes the pipes it has come to and leaves the others. */
  lemma {:induction false} FlushedPipes(s: Shipment, n: nat, clock: nat -> Timestamp)
    ensures var t := Flushed(s, n, clock);
            && |t.pipes| == |s.pipes|
            && forall i | 0 <= i < |s.pipes| :: t.pipes[i].open == (s.pipes[i].open && i >= n)
    decreases n
  {
    hide Tag, Drained;
    if n > 0 {
      FlushedPipes(s, n - 1, clock);
    }
  }

  lemma {:induction false} FlushedIsFaithful(s: Shipment, n: nat, clock: nat -> Timestamp, pipe: nat, taken: seq<Read>)
    requires Faithful(s, pipe, taken)
    ensures Faithful(Flushed(s, n, clock), pipe,
                     taken + if pipe < n && pipe < |s.pipes| && s.pipes[pipe].open then [Closed] else [])
    decreases n
  {
    hide Faithful, Taken;
    AppendNothing(taken);
    if n > 0 {
      FlushedIsFaithful(s, n - 1, clock, pipe, taken);
      FlushedPipes(s, n - 1, clock);
      var before := taken + if pipe < n - 1 && pipe < |s.pipes| && s.pipes[pipe].open then [Closed] else [];
      TakenIsFaithful(Flushed(s, n - 1, clock), n - 1, Closed, clock, pipe, before);
      AppendNothing(before);
    }
  }

  lemma AfterIsFaithful(s: Shipment, h: Happening, clock: nat -> Timestamp, pipe: nat, taken: seq<Read>)
    requires Faithful(s, pipe, taken)
    ensures Faithful(After(s, h, clock), pipe, taken + Gives(s, h, pipe))
  {
    hide DrainedAll, FromPipe, Taken, Flushed, OverProperly;
    AppendNothing(taken);
    match h
    case Accepted(_) => NewPipeIsFaithful(s, h, clock, pipe, taken);
    case Took(i, read) => TakenIsFaithful(s, i, read, clock, pipe, taken);
    case SocketClosed => FlushedIsFaithful(s, |s.pipes|, clock, pipe, taken);
  }

  lemma NewPipeIsFaithful(s: Shipment, h: Happening, clock: nat -> Timestamp, pipe: nat, taken: seq<Read>)
    requires Faithful(s, pipe, taken) && h.Accepted?
    ensures Faithful(After(s, h, clock), pipe, taken)
  {
    hide FromPipe;
    NothingDrained();
  }

  lemma NothingDrained()
    ensures DrainedAll([]) == Pieces([], [])
  {
  }

  lemma {:induction false} RunIsFaithful(happenings: seq<Happening>, clock: nat -> Timestamp, pipe: nat)
    ensures Faithful(Ran(happenings, clock), pipe, OwnReads(happenings, clock, pipe))
  {
    hide Faithful, After;
    if happenings == [] {
      NothingIsFaithful(pipe);
    } else {
      var before := happenings[..|happenings| - 1];
      RunIsFaithful(before, clock, pipe);
      AfterIsFaithful(Ran(before, clock), happenings[|happenings| - 1], clock, pipe, OwnReads(before, clock, pipe));
    }
  }

  lemma NothingIsFaithful(pipe: nat)
    ensures Faithful(Shipment([], [], false), pipe, [])
  {
  }

  /** Every line carries the unit of the pipe it came from. */
  ghost predicate Attributed(s: Shipment)
  {
    forall i | 0 <= i < |s.lines| :: s.lines[i].pipe < |s.pipes| && s.lines[i].unit == s.pipes[s.lines[i].pipe].unit
  }

  lemma {:induction false} TaggedAre(pipe: nat, unit: string, texts: seq<Bytes>, clock: nat -> Timestamp, from: nat)
    ensures forall i | 0 <= i < |texts| ::
              Tag(pipe, unit, texts, clock, from)[i].pipe == pipe && Tag(pipe, unit, texts, clock, from)[i].unit == unit
    decreases |texts|
  {
    if texts != [] {
      TaggedAre(pipe, unit, texts[..|texts| - 1], clock, from);
    }
  }

  lemma TakenIsAttributed(s: Shipment, i: nat, read: Read, clock: nat -> Timestamp)
    requires Attributed(s)
    ensures Attributed(Taken(s, i, read, clock))
  {
    hide Tag, Drained;
    if i < |s.pipes| && s.pipes[i].open {
      var p := s.pipes[i];
      TaggedAre(i, p.unit, Drained(p.held, read).0, clock, |s.lines|);
    }
  }

  lemma {:induction false} FlushedIsAttributed(s: Shipment, n: nat, clock: nat -> Timestamp)
    requires Attributed(s)
    ensures Attributed(Flushed(s, n, clock))
    decreases n
  {
    hide Attributed, Taken;
    if n > 0 {
      FlushedIsAttributed(s, n - 1, clock);
      TakenIsAttributed(Flushed(s, n - 1, clock), n - 1, Closed, clock);
    }
  }

  lemma {:induction false} RunIsAttributed(happenings: seq<Happening>, clock: nat -> Timestamp)
    ensures Attributed(Ran(happenings, clock))
  {
    hide Taken, Flushed;
    if happenings != [] {
      var s, h := Ran(happenings[..|happenings| - 1], clock), happenings[|happenings| - 1];
      RunIsAttributed(happenings[..|happenings| - 1], clock);
      match h
      case Accepted(_) =>
      case Took(i, read) => TakenIsAttributed(s, i, read, clock);
      case SocketClosed => FlushedIsAttributed(s, |s.pipes|, clock);
    }
  }

  /** Once the socket has closed no pipe is held: each had ended, or has been written out to the last byte. */
  lemma NothingIsHeldBack(happenings: seq<Happening>, clock: nat -> Timestamp, pipe: nat)
    requires Ran(happenings, clock).over && pipe < |Ran(happenings, clock).pipes|
    ensures !Ran(happenings, clock).pipes[pipe].open
    ensures var taken := OwnReads(happenings, clock, pipe);
            Finished(taken) || (taken != [] && taken[|taken| - 1].Broken?)
  {
    AllAreGone(happenings, clock);
    hide Ran, OwnReads;
    RunIsFaithful(happenings, clock, pipe);
  }

  lemma {:induction false} AllAreGone(happenings: seq<Happening>, clock: nat -> Timestamp)
    ensures var s := Ran(happenings, clock); s.over ==> forall i | 0 <= i < |s.pipes| :: !s.pipes[i].open
  {
    hide Flushed;
    if happenings != [] {
      var s := Ran(happenings[..|happenings| - 1], clock);
      AllAreGone(happenings[..|happenings| - 1], clock);
      FlushedPipes(s, |s.pipes|, clock);
      TakenIsNotOver(happenings[|happenings| - 1], s, clock);
    }
  }

  lemma TakenIsNotOver(h: Happening, s: Shipment, clock: nat -> Timestamp)
    ensures !s.over && !h.SocketClosed? ==> !After(s, h, clock).over
  {
  }

  /** Everything one pipe handed over. */
  function TextOf(happenings: seq<Happening>, clock: nat -> Timestamp, pipe: nat): Bytes
  {
    Flatten(Chunks(OwnReads(happenings, clock, pipe)))
  }

  /** Whether nothing more can come, the writer or the socket being gone, so that the last words count too. */
  predicate Finished(taken: seq<Read>)
  {
    taken != [] && taken[|taken| - 1].Closed?
  }

  /** What a pipe's own reads should have left in the log: its lines, and its last words once nothing more can come. */
  function Due(happenings: seq<Happening>, clock: nat -> Timestamp, pipe: nat): seq<Bytes>
  {
    var text := TextOf(happenings, clock, pipe);
    if Finished(OwnReads(happenings, clock, pipe)) then Said(text) else Split(text).lines
  }

  lemma ChunksOfEnding(taken: seq<Read>, r: Read)
    requires Ending(r)
    ensures Chunks(taken + [r]) == Chunks(taken)
  {
    assert (taken + [r])[..|taken|] == taken;
    AppendNothing(Chunks(taken));
  }

  lemma ReadsLeaveTheirLines(taken: seq<Read>, open: bool)
    requires OverProperly(taken, open) && Short(Flatten(Chunks(taken)))
    ensures var text := Flatten(Chunks(taken));
            DrainedAll(taken).lines == if Finished(taken) then Said(text) else Split(text).lines
  {
    hide Stream, Split, Flatten, Short, DrainedAll;
    if open {
      DrainingIsSplitting(taken);
      ChunkingDoesNotMatter(Chunks(taken));
    } else {
      var n := |taken| - 1;
      var front, last := taken[..n], taken[n];
      LastOff(taken);
      ChunksOfEnding(front, last);
      DrainingIsSplitting(front);
      ChunkingDoesNotMatter(Chunks(front));
      OneMoreRead(front, last);
      AppendNothing(DrainedAll(front).lines);
    }
  }

  /** Whatever else happens meanwhile, a pipe whose lines are below the bound leaves exactly its own lines. */
  lemma PipeLeavesItsLines(happenings: seq<Happening>, clock: nat -> Timestamp, pipe: nat)
    requires pipe < |Ran(happenings, clock).pipes| && Short(TextOf(happenings, clock, pipe))
    ensures FromPipe(Ran(happenings, clock).lines, pipe) == Due(happenings, clock, pipe)
  {
    hide Ran, OwnReads, Short;
    RunIsFaithful(happenings, clock, pipe);
    ReadsLeaveTheirLines(OwnReads(happenings, clock, pipe), Ran(happenings, clock).pipes[pipe].open);
  }

  // ----- From the pipes to the files -----

  /**
   * From any directory, over any run of the shipper with any number of pipes for a unit, before, after or beside one
   * another: what survives of the unit's log is the end of what was there and what was written since; and of what was
   * written since, the part that came from each of the unit's pipes is that pipe's own lines, none lost, split, merged
   * or reordered, and its last words once its writer or the shipper's socket is gone.
   */
  lemma OutputReachesTheLog(
      s: Store, rotation: Rotation, happenings: seq<Happening>, clock: nat -> Timestamp, unit: string)
    requires Valid(s)
    ensures var ran := Ran(happenings, clock);
            && IsSuffix(History(WriteAll(s, rotation, EntriesOf(ran.lines)), unit, rotation.keep),
                        History(s, unit, rotation.keep) + Records(OfUnit(ran.lines, unit)))
            && forall pipe: nat |
                 pipe < |ran.pipes| && ran.pipes[pipe].unit == unit && Short(TextOf(happenings, clock, pipe)) ::
                 FromPipe(OfUnit(ran.lines, unit), pipe) == Due(happenings, clock, pipe)
  {
    hide Valid, WriteAll, History, Short, Ran, Due, TextOf, IsSuffix;
    var ran := Ran(happenings, clock);
    UnitRecords(ran.lines, unit);
    LogsAreASuffix(s, rotation, EntriesOf(ran.lines), unit);
    RunIsAttributed(happenings, clock);
    forall pipe: nat | pipe < |ran.pipes| && ran.pipes[pipe].unit == unit && Short(TextOf(happenings, clock, pipe))
      ensures FromPipe(OfUnit(ran.lines, unit), pipe) == Due(happenings, clock, pipe)
    {
      UnitKeepsPipe(ran.lines, unit, pipe);
      PipeLeavesItsLines(happenings, clock, pipe);
    }
  }

  /** A unit with a single pipe leaves exactly that pipe's lines, in order. */
  lemma OnePipeReachesTheLog(happenings: seq<Happening>, clock: nat -> Timestamp, unit: string, pipe: nat)
    requires pipe < |Ran(happenings, clock).pipes| && Short(TextOf(happenings, clock, pipe))
    requires forall i | 0 <= i < |Ran(happenings, clock).pipes| ::
               Ran(happenings, clock).pipes[i].unit == unit <==> i == pipe
    ensures Texts(OfUnit(Ran(happenings, clock).lines, unit)) == Due(happenings, clock, pipe)
  {
    hide Short, Ran, Due, TextOf;
    RunIsAttributed(happenings, clock);
    OnePipeSaysAll(Ran(happenings, clock).lines, unit, pipe);
    PipeLeavesItsLines(happenings, clock, pipe);
  }

  // ----- The shipper does this -----

  lemma {:induction false} EntriesJoin(a: seq<Line>, b: seq<Line>)
    ensures EntriesOf(a + b) == EntriesOf(a) + EntriesOf(b)
    decreases |b|
  {
    hide Record;
    if b == [] {
      AppendNothing(a);
      AppendNothing(EntriesOf(a));
    } else {
      var n := |b| - 1;
      EntriesJoin(a, b[..n]);
      LastOff(b);
      AppendInParts(a, b[..n], [b[n]]);
      OneMoreLine(a + b[..n], b[n], 0, "");
      AppendInParts(EntriesOf(a), EntriesOf(b[..n]), [Entry(b[n].unit, Record(b[n].at, b[n].text))]);
    }
  }

  lemma NothingTagged(pipe: nat, unit: string, clock: nat -> Timestamp, from: nat)
    ensures EntriesOf(Tag(pipe, unit, [], clock, from)) == [] == Entries(unit, [], clock, from)
  {
  }

  lemma TagOneMore(pipe: nat, unit: string, texts: seq<Bytes>, clock: nat -> Timestamp, from: nat)
    requires texts != []
    ensures var n := |texts| - 1;
            Tag(pipe, unit, texts, clock, from) ==
            Tag(pipe, unit, texts[..n], clock, from) + [Line(pipe, unit, clock(from + n), texts[n])]
  {
  }

  lemma {:induction false} TaggedEntries(pipe: nat, unit: string, texts: seq<Bytes>, clock: nat -> Timestamp, from: nat)
    ensures EntriesOf(Tag(pipe, unit, texts, clock, from)) == Entries(unit, texts, clock, from)
    decreases |texts|
  {
    hide Record, Texts, Records, FromPipe, OfUnit, EntriesOf, Entries, Tag;
    if texts == [] {
      NothingTagged(pipe, unit, clock, from);
    } else {
      var n := |texts| - 1;
      TaggedEntries(pipe, unit, texts[..n], clock, from);
      TagOneMore(pipe, unit, texts, clock, from);
      OneMoreLine(Tag(pipe, unit, texts[..n], clock, from), Line(pipe, unit, clock(from + n), texts[n]), 0, "");
      EntriesOneMore(unit, texts, clock, from, n);
      TakeAll(texts);
      LastOff(Entries(unit, texts, clock, from));
    }
  }

  lemma {:induction false} WriteJoins(s: Store, rotation: Rotation, a: seq<Entry>, b: seq<Entry>)
    ensures WriteAll(s, rotation, a + b) == WriteAll(WriteAll(s, rotation, a), rotation, b)
    decreases |b|
  {
    hide Write;
    if b == [] {
      AppendNothing(a);
    } else {
      var n := |b| - 1;
      WriteJoins(s, rotation, a, b[..n]);
      LastOff(b);
      AppendInParts(a, b[..n], [b[n]]);
      assert (a + b)[..|a + b| - 1] == a + b[..n];
    }
  }

  lemma TagIsWritten(
      s: Store, rotation: Rotation, lines: seq<Line>, pipe: nat, unit: string, texts: seq<Bytes>,
      clock: nat -> Timestamp)
    ensures WriteAll(s, rotation, EntriesOf(lines + Tag(pipe, unit, texts, clock, |lines|))) ==
            WriteAll(WriteAll(s, rotation, EntriesOf(lines)), rotation, Entries(unit, texts, clock, |lines|))
  {
    hide WriteAll, EntriesOf, Tag, Entries;
    EntriesJoin(lines, Tag(pipe, unit, texts, clock, |lines|));
    TaggedEntries(pipe, unit, texts, clock, |lines|);
    WriteJoins(s, rotation, EntriesOf(lines), Entries(unit, texts, clock, |lines|));
  }

  /** The pipes as the objects that hold them. */
  ghost predicate Holds(sources: seq<Source>, open: seq<bool>, pipes: seq<Pipe>)
    reads set i | 0 <= i < |sources| :: sources[i].splitter
  {
    && |sources| == |pipes| && |open| == |pipes|
    && (forall i, j | 0 <= i < j < |sources| :: sources[i].splitter != sources[j].splitter)
    && forall i | 0 <= i < |sources| :: pipes[i] == Pipe(sources[i].unit, sources[i].splitter.partial, open[i])
  }

  /** One read, from the object that holds the pipe. */
  method Take(shipper: Shipper, sources: seq<Source>, open: seq<bool>, pipe: nat, read: Read, clock: nat -> Timestamp,
              ghost s: Shipment, ghost start: Store)
    returns (alive: bool)
    requires Holds(sources, open, s.pipes) && pipe < |sources| && open[pipe] && shipper.stamped == |s.lines|
    requires shipper.State() == WriteAll(start, shipper.rotation, EntriesOf(s.lines))
    modifies shipper, sources[pipe].splitter
    ensures var t := Taken(s, pipe, read, clock);
            && Holds(sources, open[pipe := alive], t.pipes) && shipper.stamped == |t.lines|
            && shipper.State() == WriteAll(start, shipper.rotation, EntriesOf(t.lines))
  {
    hide WriteAll, EntriesOf, Tag, Entries, Drained;
    var source := sources[pipe];
    TagIsWritten(start, shipper.rotation, s.lines, pipe, source.unit, Drained(source.splitter.partial, read).0, clock);
    alive := shipper.Drain(source, read, clock);
  }

  /** Everything still held, on the way out: each pipe in turn gives up its last words, if it has any. */
  method DrainAll(shipper: Shipper, sources: seq<Source>, open: seq<bool>, clock: nat -> Timestamp,
                  ghost s: Shipment, ghost start: Store)
    returns (left: seq<bool>)
    requires Holds(sources, open, s.pipes) && shipper.stamped == |s.lines|
    requires shipper.State() == WriteAll(start, shipper.rotation, EntriesOf(s.lines))
    modifies shipper, set i | 0 <= i < |sources| :: sources[i].splitter
    ensures var t := Flushed(s, |s.pipes|, clock);
            && Holds(sources, left, t.pipes) && shipper.stamped == |t.lines|
            && shipper.State() == WriteAll(start, shipper.rotation, EntriesOf(t.lines))
  {
    hide WriteAll, EntriesOf, Taken;
    left := open;
    for n := 0 to |sources|
      invariant Holds(sources, left, Flushed(s, n, clock).pipes) && shipper.stamped == |Flushed(s, n, clock).lines|
      invariant shipper.State() == WriteAll(start, shipper.rotation, EntriesOf(Flushed(s, n, clock).lines))
    {
      if left[n] {
        var alive := Take(shipper, sources, left, n, Closed, clock, Flushed(s, n, clock), start);
        left := left[n := alive];
      } else {
        GoneGivesNothing(Flushed(s, n, clock), n, Closed, clock);
      }
    }
  }

  lemma GoneGivesNothing(s: Shipment, i: nat, read: Read, clock: nat -> Timestamp)
    requires i >= |s.pipes| || !s.pipes[i].open
    ensures Taken(s, i, read, clock) == s
  {
  }

  lemma NothingRan(clock: nat -> Timestamp)
    ensures Ran([], clock) == Shipment([], [], false)
  {
  }

  lemma WroteNothing(s: Store, rotation: Rotation)
    ensures WriteAll(s, rotation, EntriesOf([])) == s
  {
  }

  lemma RanOneMore(happenings: seq<Happening>, clock: nat -> Timestamp, i: nat)
    requires i < |happenings|
    ensures Ran(happenings[..i + 1], clock) == After(Ran(happenings[..i], clock), happenings[i], clock)
  {
    assert happenings[..i + 1][..i] == happenings[..i];
  }

  /** Announcements and reads as they come, up to the end of the socket; only the run's records reach the files. */
  method Serve(shipper: Shipper, happenings: seq<Happening>, clock: nat -> Timestamp)
    requires shipper.stamped == 0
    modifies shipper
    ensures shipper.State() == WriteAll(old(shipper.State()), shipper.rotation, EntriesOf(Ran(happenings, clock).lines))
  {
    hide Ran, WriteAll, EntriesOf, Taken, Flushed;
    var sources: seq<Source>, open: seq<bool>, over := [], [], false;
    NothingRan(clock);
    WroteNothing(shipper.State(), shipper.rotation);
    ghost var start := shipper.State();
    for i := 0 to |happenings|
      invariant forall j | 0 <= j < |sources| :: fresh(sources[j]) && fresh(sources[j].splitter)
      invariant Holds(sources, open, Ran(happenings[..i], clock).pipes) && over == Ran(happenings[..i], clock).over
      invariant shipper.stamped == |Ran(happenings[..i], clock).lines|
      invariant shipper.State() == WriteAll(start, shipper.rotation, EntriesOf(Ran(happenings[..i], clock).lines))
    {
      RanOneMore(happenings, clock, i);
      ghost var s := Ran(happenings[..i], clock);
      if !over {
        match happenings[i] {
          case Accepted(unit) =>
            var source := new Source(unit);
            sources, open := sources + [source], open + [true];
          case Took(pipe, read) =>
            TakenGoesOn(s, pipe, read, clock);
            if pipe < |sources| && open[pipe] {
              var alive := Take(shipper, sources, open, pipe, read, clock, s, start);
              open := open[pipe := alive];
            } else {
              GoneGivesNothing(s, pipe, read, clock);
            }
          case SocketClosed =>
            open := DrainAll(shipper, sources, open, clock, s, start);
            over := true;
        }
      }
    }
    TakeAll(happenings);
  }

  lemma TakenGoesOn(s: Shipment, i: nat, read: Read, clock: nat -> Timestamp)
    ensures Taken(s, i, read, clock).over == s.over
  {
  }
}
