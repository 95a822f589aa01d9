/** Whole runs of the log writer, and what a reader of its files can rely on. */
module LogRuns {
  import opened Names
  import opened Numbers
  import opened Splitting
  import opened LogFiles
  import opened LogStore

  // ----- The surviving records -----

  /** The records of one unit among everything written. */
  function Only(entries: seq<Entry>, unit: string): seq<Bytes>
  {
    if entries == [] then []
    else
      var last := entries[|entries| - 1];
      Only(entries[..|entries| - 1], unit) + if last.unit == unit then [last.record] else []
  }

  predicate Written(entries: seq<Entry>)
  {
    forall e | e in entries :: e.record != []
  }

  lemma {:induction false} RunIsValid(s: Store, rotation: Rotation, entries: seq<Entry>)
    requires Valid(s) && Written(entries)
    ensures Valid(WriteAll(s, rotation, entries))
  {
    hide Valid, Write;
    if entries != [] {
      var n := |entries| - 1;
      RunIsValid(s, rotation, entries[..n]);
      WriteExtendsLog(WriteAll(s, rotation, entries[..n]), rotation, entries[n].unit, entries[n].record);
    }
  }

  /** What one write does to a unit's log: its own record at the end, another unit's nothing. */
  lemma WriteStep(s: Store, rotation: Rotation, e: Entry, unit: string)
    requires Valid(s) && e.record != []
    ensures var h := History(s, unit, rotation.keep);
            var g := History(Write(s, rotation, e.unit, e.record), unit, rotation.keep);
            if e.unit == unit
            then IsSuffix(g, h + [e.record])
                 && (rotation.keep == 0 || g == h + [e.record] || Size(g) > rotation.maxSize)
            else g == h
  {
    hide Valid, Write, History, SameFiles, IsSuffix, Size;
    if e.unit == unit {
      WriteExtendsLog(s, rotation, unit, e.record);
    } else {
      WriteLeavesOthers(s, rotation, e.unit, e.record, unit);
      SameHistory(s, Write(s, rotation, e.unit, e.record), unit, rotation.keep);
    }
  }

  /**
   * What survives of a unit's log is the end of what was there and everything written since, in order, other
   * units' writes making no difference.
   */
  lemma {:induction false} LogsAreASuffix(s: Store, rotation: Rotation, entries: seq<Entry>, unit: string)
    requires Valid(s) && Written(entries)
    ensures IsSuffix(History(WriteAll(s, rotation, entries), unit, rotation.keep),
                     History(s, unit, rotation.keep) + Only(entries, unit))
  {
    hide Valid, Write, History, Size;
    var whole := History(s, unit, rotation.keep);
    if entries == [] {
      AppendNothing(whole);
    } else {
      var n := |entries| - 1;
      var before := WriteAll(s, rotation, entries[..n]);
      var h, g := History(before, unit, rotation.keep), History(WriteAll(s, rotation, entries), unit, rotation.keep);
      hide WriteAll, IsSuffix;
      LogsAreASuffix(s, rotation, entries[..n], unit);
      RunIsValid(s, rotation, entries[..n]);
      WriteStep(before, rotation, entries[n], unit);
      var sofar := Only(entries[..n], unit);
      AppendNothing(sofar);
      if entries[n].unit == unit {
        SuffixOneMore(h, whole + sofar, g, entries[n].record);
        AppendInParts(whole, sofar, [entries[n].record]);
      }
    }
  }

  /** With at least one generation kept, a unit's log is still whole or holds more than one file's worth. */
  lemma {:induction false} LossNeedsAFullFile(s: Store, rotation: Rotation, entries: seq<Entry>, unit: string)
    requires Valid(s) && Written(entries) && rotation.keep > 0
    ensures var h := History(WriteAll(s, rotation, entries), unit, rotation.keep);
            h == History(s, unit, rotation.keep) + Only(entries, unit) || Size(h) > rotation.maxSize
  {
    hide Valid, Write, History, Size, IsSuffix;
    var whole := History(s, unit, rotation.keep);
    if entries == [] {
      AppendNothing(whole);
    } else {
      var n := |entries| - 1;
      var before := WriteAll(s, rotation, entries[..n]);
      var h, g := History(before, unit, rotation.keep), History(WriteAll(s, rotation, entries), unit, rotation.keep);
      hide WriteAll;
      LossNeedsAFullFile(s, rotation, entries[..n], unit);
      RunIsValid(s, rotation, entries[..n]);
      WriteStep(before, rotation, entries[n], unit);
      var sofar := Only(entries[..n], unit);
      AppendNothing(sofar);
      AppendInParts(whole, sofar, [entries[n].record]);
      SizeOneMore(h, entries[n].record);
    }
  }

  // ----- How much there is -----

  ghost predicate AllFit(s: Store, maxSize: nat)
  {
    forall path | path in s.names :: Size(Content(s, path)) <= maxSize || |Content(s, path)| == 1
  }

  lemma EmptyIsSmallest(records: seq<Bytes>)
    requires forall i | 0 <= i < |records| :: records[i] != []
    ensures Size(records) == 0 ==> records == []
  {
  }

  lemma OpenFits(s: Store, unit: string, maxSize: nat)
    requires Valid(s) && AllFit(s, maxSize)
    ensures AllFit(Open(s, unit), maxSize)
  {
    hide Valid, Open;
    OpenIsValid(s, unit);
    forall path | path in Open(s, unit).names
      ensures Size(Content(Open(s, unit), path)) <= maxSize || |Content(Open(s, unit), path)| == 1
    {
      assert Content(Open(s, unit), path) == Content(s, path);
    }
  }

  lemma RotateFits(s: Store, rotation: Rotation, unit: string)
    requires Valid(s) && AllFit(s, rotation.maxSize)
    ensures AllFit(Rotate(s, rotation, unit), rotation.maxSize)
  {
    hide ApplyAll, PlanOf, Size;
    var t := Rotate(s, rotation, unit);
    MovesKeepNamesApart(s.names, PlanOf(unit, rotation.keep));
    forall path | path in t.names ensures Size(Content(t, path)) <= rotation.maxSize || |Content(t, path)| == 1 {
      assert t.names[path] in t.names.Values;
      var p :| p in s.names && s.names[p] == t.names[path];
      assert Content(t, path) == Content(s, p);
    }
  }

  /** What the handle knows once there is room: the record fits the file, or the file is empty. */
  lemma ReadyHasRoom(s: Store, rotation: Rotation, unit: string, adding: nat)
    requires Valid(s) && rotation.maxSize < U64_MAX
    ensures var live := Content(Ready(s, rotation, unit, adding), Path(unit, 0));
            live == [] || Size(live) + adding <= rotation.maxSize
  {
    hide Open, Rotate, Path;
    OpenIsValid(s, unit);
    var o := Open(s, unit);
    OpenIsValid(o, unit);
    assert TrueSink(o, unit, o.sinks[unit]);
    var live := Content(o, Path(unit, 0));
    assert live == File(o, o.sinks[unit].inode);
    if ShouldRotate(rotation, o.sinks[unit].size, adding) {
      RotateIsValid(o, rotation, unit);
      RotateShiftsContent(o, rotation, unit);
      OpenIsValid(Rotate(o, rotation, unit), unit);
    } else if o.sinks[unit].size == 0 {
      RecordsAreNotEmpty(o, Path(unit, 0));
      EmptyIsSmallest(live);
    }
  }

  lemma RecordsAreNotEmpty(s: Store, path: string)
    requires Valid(s)
    ensures forall i | 0 <= i < |Content(s, path)| :: Content(s, path)[i] != []
  {
    forall i | 0 <= i < |Content(s, path)| ensures Content(s, path)[i] != [] {
      assert Content(s, path)[i] in s.files[s.names[path]];
    }
  }

  lemma WriteFits(s: Store, rotation: Rotation, unit: string, record: Bytes)
    requires Valid(s) && record != [] && AllFit(s, rotation.maxSize) && rotation.maxSize < U64_MAX
    ensures AllFit(Write(s, rotation, unit, record), rotation.maxSize)
  {
    hide Valid, Open, Rotate, ShouldRotate, Append, Path, Content;
    OpenIsValid(s, unit);
    var o := Open(s, unit);
    OpenFits(s, unit, rotation.maxSize);
    RotateIsValid(o, rotation, unit);
    RotateFits(o, rotation, unit);
    OpenFits(o, unit, rotation.maxSize);
    OpenFits(Rotate(o, rotation, unit), unit, rotation.maxSize);
    ReadyIsValid(s, rotation, unit, |record|);
    ReadyHasRoom(s, rotation, unit, |record|);
    AppendFits(Ready(s, rotation, unit, |record|), rotation, unit, record);
  }

  lemma AppendFits(s: Store, rotation: Rotation, unit: string, record: Bytes)
    requires Valid(s) && unit in s.sinks && record != [] && AllFit(s, rotation.maxSize)
    requires Content(s, Path(unit, 0)) == [] || Size(Content(s, Path(unit, 0))) + |record| <= rotation.maxSize
    ensures AllFit(Append(s, unit, record), rotation.maxSize)
  {
    hide Valid, Append, Path, Content;
    AppendIsValid(s, unit, record);
    SizeOneMore(Content(s, Path(unit, 0)), record);
  }

  /** No file ever exceeds the limit, but for one holding a single record that does by itself. */
  lemma {:induction false} FilesStayWithinLimit(s: Store, rotation: Rotation, entries: seq<Entry>)
    requires Valid(s) && Written(entries) && AllFit(s, rotation.maxSize) && rotation.maxSize < U64_MAX
    ensures AllFit(WriteAll(s, rotation, entries), rotation.maxSize)
  {
    hide Valid, Write, AllFit;
    if entries != [] {
      var n := |entries| - 1;
      FilesStayWithinLimit(s, rotation, entries[..n]);
      RunIsValid(s, rotation, entries[..n]);
      WriteFits(WriteAll(s, rotation, entries[..n]), rotation, entries[n].unit, entries[n].record);
    }
  }

  /** The names a unit's log can have. */
  function OwnPaths(unit: string, n: nat): (r: set<string>)
    ensures |r| <= n + 1
    ensures forall path :: path in r <==> Owns(unit, n, path)
  {
    if n == 0 then
      assert forall path :: Owns(unit, 0, path) <==> path == Path(unit, 0) by { OwnsNone(unit); }
      {Path(unit, 0)}
    else
      assert forall path :: Owns(unit, n, path) <==> Owns(unit, n - 1, path) || path == Path(unit, n) by {
        OwnsOneMore(unit, n - 1);
      }
      OwnPaths(unit, n - 1) + {Path(unit, n)}
  }

  lemma OwnsNone(unit: string)
    ensures forall path :: Owns(unit, 0, path) <==> path == Path(unit, 0)
  {
    assert Owns(unit, 0, Path(unit, 0));
  }

  lemma OwnsOneMore(unit: string, n: nat)
    ensures forall path :: Owns(unit, n + 1, path) <==> Owns(unit, n, path) || path == Path(unit, n + 1)
  {
    assert Owns(unit, n + 1, Path(unit, n + 1));
    forall path ensures Owns(unit, n, path) ==> Owns(unit, n + 1, path) {
      OwnsMore(unit, n, path);
    }
  }

  /** A write makes no file but its unit's live one and generations up to `keep`. */
  lemma WriteNames(s: Store, rotation: Rotation, unit: string, record: Bytes)
    requires Valid(s) && record != []
    ensures Write(s, rotation, unit, record).names.Keys <= s.names.Keys + OwnPaths(unit, rotation.keep)
  {
    hide Valid, Append, ShouldRotate, Path, Content;
    OpenIsValid(s, unit);
    var o := Open(s, unit);
    RotateIsValid(o, rotation, unit);
    RotateShiftsContent(o, rotation, unit);
    OpenIsValid(o, unit);
    OpenIsValid(Rotate(o, rotation, unit), unit);
    assert Owns(unit, rotation.keep, Path(unit, 0));
    ReadyIsValid(s, rotation, unit, |record|);
    AppendIsValid(Ready(s, rotation, unit, |record|), unit, record);
    forall path | path in Rotate(o, rotation, unit).names ensures path in s.names.Keys + OwnPaths(unit, rotation.keep) {
      if !Owns(unit, rotation.keep, path) {
        assert Lookup(Rotate(o, rotation, unit).names, path) == Lookup(o.names, path);
      }
    }
  }

  /** The files of one unit, by any generation. */
  ghost predicate OnlyKept(s: Store, unit: string, keep: nat)
  {
    forall i: nat | Path(unit, i) in s.names :: i <= keep
  }

  /** However long the run, a unit has no old file past generation `keep`. */
  lemma {:induction false} NoOlderThanKeep(s: Store, rotation: Rotation, entries: seq<Entry>, unit: string)
    requires Valid(s) && Written(entries) && OnlyKept(s, unit, rotation.keep)
    ensures OnlyKept(WriteAll(s, rotation, entries), unit, rotation.keep)
  {
    hide Valid, Write, Path, OwnPaths;
    if entries != [] {
      var n := |entries| - 1;
      var before := WriteAll(s, rotation, entries[..n]);
      var e := entries[n];
      NoOlderThanKeep(s, rotation, entries[..n], unit);
      RunIsValid(s, rotation, entries[..n]);
      WriteNames(before, rotation, e.unit, e.record);
      var t := Write(before, rotation, e.unit, e.record);
      forall i: nat | Path(unit, i) in t.names ensures i <= rotation.keep {
        if i > rotation.keep {
          NotOwned(e.unit, rotation.keep, unit, i);
        }
      }
    }
  }

  ghost function FilesOf(s: Store, unit: string): set<string>
  {
    set path | path in s.names && exists i: nat :: path == Path(unit, i)
  }

  /** So it has at most `keep` old files and a live one. */
  lemma FewFiles(s: Store, unit: string, keep: nat)
    requires OnlyKept(s, unit, keep)
    ensures |FilesOf(s, unit)| <= keep + 1
  {
    hide Path;
    forall path | path in FilesOf(s, unit) ensures Owns(unit, keep, path) {
      var i: nat :| path == Path(unit, i);
    }
    SubsetIsSmaller(FilesOf(s, unit), OwnPaths(unit, keep));
  }

  lemma SubsetIsSmaller(a: set<string>, b: set<string>)
    requires a <= b
    ensures |a| <= |b|
  {
    assert b == a + (b - a);
  }

  // ----- Reading a file back -----

  predicate IsRecord(r: Bytes)
  {
    r != [] && r[|r| - 1] == NEWLINE && NEWLINE !in r[..|r| - 1]
  }

  /** A record without its newline. */
  function Body(r: Bytes): Bytes
  {
    if r == [] then [] else r[..|r| - 1]
  }

  function Bodies(records: seq<Bytes>): seq<Bytes>
  {
    if records == [] then [] else Bodies(records[..|records| - 1]) + [Body(records[|records| - 1])]
  }

  /** A file of records, cut at its newlines, is those records again. */
  lemma {:induction false} FilesReadBack(records: seq<Bytes>)
    requires forall r | r in records :: IsRecord(r)
    ensures Split(Flatten(records)) == Pieces(Bodies(records), [])
  {
    if records != [] {
      var n := |records| - 1;
      FilesReadBack(records[..n]);
      LineReadsBack(Flatten(records[..n]), records[n]);
    }
  }

  lemma LineReadsBack(text: Bytes, r: Bytes)
    requires IsRecord(r) && Split(text).tail == []
    ensures Split(text + r) == Pieces(Split(text).lines + [Body(r)], [])
  {
    hide Split;
    var line := Body(r);
    SplitPlain(text, line);
    SplitOneMore(text + line, NEWLINE);
    assert text + r == text + line + [NEWLINE];
    AppendNothing(line);
  }

  // ----- A service's output, end to end -----

  /** What a service said: its lines, and its last words if they had no newline. */
  function Said(text: Bytes): seq<Bytes>
  {
    var p := Split(text);
    p.lines + if p.tail == [] then [] else [p.tail]
  }

  /** What the splitter emits for a stream that ended. */
  function Emitted(chunks: seq<Bytes>): seq<Bytes>
  {
    var p := Stream(chunks);
    p.lines + if p.tail == [] then [] else [p.tail]
  }

  // ----- The writer itself -----

  datatype Read = Closed | Broken | Retry | Data(bytes: Bytes)

  /** One service's pipe. */
  class Source {
    const unit: string
    const splitter: Splitter

    constructor (unit: string)
      ensures this.unit == unit && splitter.partial == [] && fresh(splitter)
    {
      this.unit := unit;
      splitter := new Splitter();
    }
  }

  class Shipper {
    const rotation: Rotation
    var names: Directory
    var files: map<nat, seq<Bytes>>
    var sinks: map<string, Sink>
    var next: nat

    /** How many records have been stamped. */
    var stamped: nat

    function State(): Store
      reads this
    {
      Store(names, files, sinks, next)
    }

    /** A writer over a directory as it was left, with nothing open yet. */
    constructor (rotation: Rotation, names: Directory, files: map<nat, seq<Bytes>>, next: nat)
      ensures this.rotation == rotation && State() == Store(names, files, map[], next) && stamped == 0
    {
      this.rotation, this.names, this.files, this.next := rotation, names, files, next;
      sinks, stamped := map[], 0;
    }

    method OpenSink(unit: string)
      modifies this
      ensures State() == Open(old(State()), unit) && stamped == old(stamped)
    {
      if unit !in sinks {
        var path := Path(unit, 0);
        if path !in names {
          names, files, next := names[path := next], files[next := []], next + 1;
        }
        sinks := sinks[unit := Sink(names[path], Saturated(Size(Content(State(), path))))];
      }
    }

    /** Carry out the plan, step by step. */
    method RotateUnit(unit: string)
      modifies this`names
      ensures names == ApplyAll(old(names), PlanOf(unit, rotation.keep))
    {
      var plan := Plan(rotation, unit);
      for i := 0 to |plan|
        invariant ApplyAll(old(names), plan) == ApplyAll(names, plan[i..])
      {
        assert plan[i..][1..] == plan[i + 1..];
        match plan[i] {
          case Remove(path) =>
            names := names - {path};
          case Rename(from, to) =>
            if from in names {
              names := (names - {from})[to := names[from]];
            }
        }
      }
    }

    /** One record into one unit's file, rotating first if it would not fit. */
    method WriteLine(unit: string, at: Timestamp, line: Bytes)
      modifies this
      ensures State() == Write(old(State()), rotation, unit, Record(at, line)) && stamped == old(stamped) + 1
    {
      hide Open, ApplyAll, PlanOf, Record;
      var record := Record(at, line);
      OpenSink(unit);
      if ShouldRotate(rotation, sinks[unit].size, |record|) {
        RotateUnit(unit);
        sinks := sinks - {unit};
      }
      OpenSink(unit);
      var sink := sinks[unit];
      files := files[sink.inode := File(State(), sink.inode) + [record]];
      sinks := sinks[unit := Sink(sink.inode, Saturated(sink.size + |record|))];
      stamped := stamped + 1;
    }

    method WriteLines(unit: string, lines: seq<Bytes>, clock: nat -> Timestamp)
      modifies this
      ensures State() == WriteAll(old(State()), rotation, Entries(unit, lines, clock, old(stamped)))
      ensures stamped == old(stamped) + |lines|
    {
      hide Write, Record, Entries;
      for i := 0 to |lines|
        invariant State() == WriteAll(old(State()), rotation, Entries(unit, lines[..i], clock, old(stamped)))
        invariant stamped == old(stamped) + i
      {
        EntriesOneMore(unit, lines, clock, old(stamped), i);
        ghost var all := Entries(unit, lines[..i + 1], clock, old(stamped));
        assert all[..|all| - 1] == Entries(unit, lines[..i], clock, old(stamped));
        WriteLine(unit, clock(stamped), lines[i]);
      }
      TakeAll(lines);
    }

    /** Read what is there and write it out: every line a read completes, or the last words of a writer that is gone. */
    method Drain(source: Source, read: Read, clock: nat -> Timestamp) returns (alive: bool)
      modifies this, source.splitter
      ensures alive == (read.Data? || read.Retry?)
      ensures stamped == old(stamped) + |Drained(old(source.splitter.partial), read).0|
      ensures var (lines, held) := Drained(old(source.splitter.partial), read);
              && State() == WriteAll(old(State()), rotation, Entries(source.unit, lines, clock, old(stamped)))
              && source.splitter.partial == held
    {
      hide WriteAll, Push;
      match read {
        case Retry =>
          NothingWritten(State(), rotation, source.unit, clock, stamped);
          return true;
        case Broken =>
          NothingWritten(State(), rotation, source.unit, clock, stamped);
          return false;
        case Closed =>
          var last := source.splitter.Flush();
          if last.Some? {
            WriteLines(source.unit, [last.value], clock);
          } else {
            NothingWritten(State(), rotation, source.unit, clock, stamped);
          }
          return false;
        case Data(bytes) =>
          var lines := source.splitter.Feed(bytes);
          WriteLines(source.unit, lines, clock);
          return true;
      }
    }
  }

  function Entries(unit: string, lines: seq<Bytes>, clock: nat -> Timestamp, from: nat): (r: seq<Entry>)
    ensures |r| == |lines|
  {
    seq(|lines|, i requires 0 <= i < |lines| => Entry(unit, Record(clock(from + i), lines[i])))
  }

  lemma EntriesOneMore(unit: string, lines: seq<Bytes>, clock: nat -> Timestamp, from: nat, i: nat)
    requires i < |lines|
    ensures var all := Entries(unit, lines[..i + 1], clock, from);
            && all[..|all| - 1] == Entries(unit, lines[..i], clock, from)
            && all[|all| - 1] == Entry(unit, Record(clock(from + i), lines[i]))
  {
  }

  lemma NothingWritten(s: Store, rotation: Rotation, unit: string, clock: nat -> Timestamp, from: nat)
    ensures WriteAll(s, rotation, Entries(unit, [], clock, from)) == s
  {
  }

  /** The lines one read yields, and what is held after it. */
  function Drained(held: Bytes, read: Read): (seq<Bytes>, Bytes)
  {
    match read
    case Closed => (if held == [] then [] else [held], [])
    case Data(bytes) => (Push(held, bytes).lines, Push(held, bytes).tail)
    case _ => ([], held)
  }

  /** Every line a pipe's reads yield, and what is held at the end. */
  function DrainedAll(taken: seq<Read>): Pieces
  {
    if taken == [] then Pieces([], [])
    else
      var p := DrainedAll(taken[..|taken| - 1]);
      var (lines, held) := Drained(p.tail, taken[|taken| - 1]);
      Pieces(p.lines + lines, held)
  }

  /** What a pipe handed over, in order. */
  function Chunks(taken: seq<Read>): seq<Bytes>
  {
    if taken == [] then []
    else
      var last := taken[|taken| - 1];
      Chunks(taken[..|taken| - 1]) + if last.Data? then [last.bytes] else []
  }

  lemma StreamOneMore(chunks: seq<Bytes>, chunk: Bytes)
    ensures var p := Stream(chunks); var q := Push(p.tail, chunk);
            Stream(chunks + [chunk]) == Pieces(p.lines + q.lines, q.tail)
  {
    assert (chunks + [chunk])[..|chunks|] == chunks;
  }

  /**
   * Reading until the writer is gone yields what the splitter makes of everything it wrote, reads that had to be
   * retried making no difference.
   */
  lemma {:induction false} DrainingIsSplitting(taken: seq<Read>)
    requires forall r | r in taken :: r.Data? || r.Retry?
    ensures DrainedAll(taken) == Stream(Chunks(taken))
    ensures DrainedAll(taken + [Closed]) == Pieces(Emitted(Chunks(taken)), [])
  {
    hide Push, Stream;
    if taken == [] {
      assert Chunks(taken) == [];
      NothingStreams();
    } else {
      var n := |taken| - 1;
      DrainingIsSplitting(taken[..n]);
      if taken[n].Data? {
        StreamOneMore(Chunks(taken[..n]), taken[n].bytes);
      } else {
        AppendNothing(Chunks(taken[..n]));
        AppendNothing(DrainedAll(taken[..n]).lines);
      }
    }
    assert (taken + [Closed])[..|taken|] == taken;
  }

  lemma NothingStreams()
    ensures Stream([]) == Pieces([], [])
  {
  }
}
