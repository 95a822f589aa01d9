/** The log writer: one open file per unit, rotated before it would grow too large. */
module LogStore {
  import opened Names
  import opened Wrappers
  import opened Splitting
  import opened LogFiles

  // ----- Files -----

  function Size(records: seq<Bytes>): nat
  {
    if records == [] then 0 else Size(records[..|records| - 1]) + |records[|records| - 1]|
  }

  lemma SizeOneMore(records: seq<Bytes>, r: Bytes)
    ensures Size(records + [r]) == Size(records) + |r|
  {
    assert (records + [r])[..|records|] == records;
  }

  lemma {:induction false} SizeJoins(a: seq<Bytes>, b: seq<Bytes>)
    ensures Size(a + b) == Size(a) + Size(b)
  {
    if b == [] {
      assert a + b == a;
    } else {
      var n := |b| - 1;
      SizeJoins(a, b[..n]);
      SizeOneMore(a + b[..n], b[n]);
      assert a + b == a + b[..n] + [b[n]];
    }
  }

  /**
   * An open handle: the file it writes to, whatever that file is called by now, and its size as far as the
   * writer knows.
   */
  datatype Sink = Sink(inode: nat, size: nat)

  /** A directory, the files behind it as the records appended to each, and the open handles by unit. */
  datatype Store = Store(names: Directory, files: map<nat, seq<Bytes>>, sinks: map<string, Sink>, next: nat)

  function File(s: Store, inode: nat): seq<Bytes>
  {
    if inode in s.files then s.files[inode] else []
  }

  function Content(s: Store, path: string): seq<Bytes>
  {
    if path in s.names then File(s, s.names[path]) else []
  }

  /** A handle leads to the file its unit's live name leads to, and knows its size. */
  predicate TrueSink(s: Store, unit: string, sink: Sink)
  {
    && Lookup(s.names, Path(unit, 0)) == Some(sink.inode)
    && sink.size == Saturated(Size(File(s, sink.inode)))
  }

  ghost predicate Valid(s: Store)
  {
    && OneNameEach(s.names)
    && (forall path | path in s.names :: s.names[path] < s.next)
    && (forall inode | inode in s.files :: inode < s.next)
    && (forall inode, r | inode in s.files && r in s.files[inode] :: r != [])
    && (forall unit | unit in s.sinks :: TrueSink(s, unit, s.sinks[unit]))
  }

  // ----- Operations -----

  function Made(s: Store, path: string): Store
  {
    s.(names := s.names[path := s.next], files := s.files[s.next := []], next := s.next + 1)
  }

  /** A new or existing file under the live name; the handle starts with the size the file has. */
  function Open(s: Store, unit: string): (t: Store)
    ensures unit in t.sinks
  {
    if unit in s.sinks then s
    else
      var path := Path(unit, 0);
      var t := if path in s.names then s else Made(s, path);
      t.(sinks := t.sinks[unit := Sink(t.names[path], Saturated(Size(Content(t, path))))])
  }

  /** The files move away under their names; the handle, which would follow its file, is dropped. */
  function Rotate(s: Store, rotation: Rotation, unit: string): Store
  {
    s.(names := ApplyAll(s.names, PlanOf(unit, rotation.keep)), sinks := s.sinks - {unit})
  }

  function Append(s: Store, unit: string, record: Bytes): Store
    requires unit in s.sinks
  {
    var sink := s.sinks[unit];
    s.(files := s.files[sink.inode := File(s, sink.inode) + [record]],
       sinks := s.sinks[unit := sink.(size := Saturated(sink.size + |record|))])
  }

  /** The store just before the append: the handle is open and there is room. */
  function Ready(s: Store, rotation: Rotation, unit: string, adding: nat): (t: Store)
    ensures unit in t.sinks
  {
    var s := Open(s, unit);
    Open(if ShouldRotate(rotation, s.sinks[unit].size, adding) then Rotate(s, rotation, unit) else s, unit)
  }

  function Write(s: Store, rotation: Rotation, unit: string, record: Bytes): Store
  {
    Append(Ready(s, rotation, unit, |record|), unit, record)
  }

  datatype Entry = Entry(unit: string, record: Bytes)

  function WriteAll(s: Store, rotation: Rotation, entries: seq<Entry>): Store
  {
    if entries == [] then s
    else
      var last := entries[|entries| - 1];
      Write(WriteAll(s, rotation, entries[..|entries| - 1]), rotation, last.unit, last.record)
  }

  // ----- What a unit's log says, oldest first -----

  function History(s: Store, unit: string, n: nat): seq<Bytes>
  {
    Content(s, Path(unit, n)) + if n == 0 then [] else History(s, unit, n - 1)
  }

  ghost predicate SameFiles(s: Store, t: Store, unit: string)
  {
    forall i: nat :: Content(s, Path(unit, i)) == Content(t, Path(unit, i))
  }

  lemma {:induction false} SameHistory(s: Store, t: Store, unit: string, n: nat)
    requires SameFiles(s, t, unit)
    ensures History(s, unit, n) == History(t, unit, n)
  {
    if n > 0 {
      SameHistory(s, t, unit, n - 1);
    }
  }

  // ----- Opening -----

  /** The file a handle needs is made if it is not there; making it changes no content. */
  lemma MakeIsValid(s: Store, path: string)
    requires Valid(s) && path !in s.names
    ensures var t := Made(s, path);
            && Valid(t) && Content(t, path) == [] && forall p :: Content(t, p) == Content(s, p)
  {
    hide Path, Size, Saturated;
    var t := Made(s, path);
    assert s.next !in s.files;
    forall other | other in t.sinks ensures TrueSink(t, other, t.sinks[other]) {
      assert TrueSink(s, other, s.sinks[other]);
    }
  }

  lemma OpenIsValid(s: Store, unit: string)
    requires Valid(s)
    ensures var t := Open(s, unit);
            && Valid(t) && t.names.Keys == s.names.Keys + {Path(unit, 0)}
            && forall path :: Content(t, path) == Content(s, path)
  {
    hide Path, Size, Saturated;
    var path := Path(unit, 0);
    if unit in s.sinks {
      assert TrueSink(s, unit, s.sinks[unit]);
    } else if path in s.names {
      SinkIsValid(s, unit);
    } else {
      MakeIsValid(s, path);
      SinkIsValid(Made(s, path), unit);
    }
  }

  lemma SinkIsValid(s: Store, unit: string)
    requires Valid(s) && Path(unit, 0) in s.names
    ensures var sink := Sink(s.names[Path(unit, 0)], Saturated(Size(Content(s, Path(unit, 0)))));
            Valid(s.(sinks := s.sinks[unit := sink]))
  {
    hide Path, Size, Saturated;
    var t := s.(sinks := s.sinks[unit := Sink(s.names[Path(unit, 0)], Saturated(Size(Content(s, Path(unit, 0)))))]);
    forall other | other in t.sinks ensures TrueSink(t, other, t.sinks[other]) {
      assert other != unit ==> TrueSink(s, other, s.sinks[other]);
    }
  }

  // ----- Appending -----

  lemma AppendIsValid(s: Store, unit: string, record: Bytes)
    requires Valid(s) && unit in s.sinks && record != []
    ensures var t := Append(s, unit, record);
            && Valid(t) && t.names == s.names
            && Content(t, Path(unit, 0)) == Content(s, Path(unit, 0)) + [record]
            && forall path | path != Path(unit, 0) :: Content(t, path) == Content(s, path)
  {
    hide Path, Size;
    var t := Append(s, unit, record);
    var inode := s.sinks[unit].inode;
    assert TrueSink(s, unit, s.sinks[unit]);
    SizeOneMore(File(s, inode), record);
    forall other | other in t.sinks ensures TrueSink(t, other, t.sinks[other]) {
      assert TrueSink(s, other, s.sinks[other]);
      if other != unit && Path(other, 0) == Path(unit, 0) {
        PathsAreDistinct(other, 0, unit, 0);
      }
    }
    forall i, r | i in t.files && r in t.files[i] ensures r != [] {
      if i in s.files && r in s.files[i] {
      } else {
        assert i == inode;
      }
    }
  }

  // ----- Rotating -----

  lemma NotOwned(unit: string, n: nat, other: string, i: nat)
    requires unit != other || i > n
    ensures !Owns(unit, n, Path(other, i))
  {
    if j: nat :| j <= n && Path(other, i) == Path(unit, j) {
      PathsAreDistinct(other, i, unit, j);
    }
  }

  /** Every generation one older, and nothing of any other unit moved. */
  lemma RotateShiftsContent(s: Store, rotation: Rotation, unit: string)
    ensures var t := Rotate(s, rotation, unit);
            && Path(unit, 0) !in t.names
            && (forall i: nat | i < rotation.keep :: Content(t, Path(unit, i + 1)) == Content(s, Path(unit, i)))
            && (forall path | !Owns(unit, rotation.keep, path) :: Lookup(t.names, path) == Lookup(s.names, path))
  {
    hide Path;
    PlanShifts(s.names, unit, rotation.keep);
    var t := Rotate(s, rotation, unit);
    forall i: nat | i < rotation.keep ensures Content(t, Path(unit, i + 1)) == Content(s, Path(unit, i)) {
      assert Lookup(t.names, Path(unit, i + 1)) == Lookup(s.names, Path(unit, i));
    }
  }

  lemma RotateIsValid(s: Store, rotation: Rotation, unit: string)
    requires Valid(s)
    ensures Valid(Rotate(s, rotation, unit))
  {
    hide Path, ApplyAll, PlanOf;
    var t := Rotate(s, rotation, unit);
    MovesKeepNamesApart(s.names, PlanOf(unit, rotation.keep));
    RotateShiftsContent(s, rotation, unit);
    forall path | path in t.names ensures t.names[path] < t.next {
      assert t.names[path] in t.names.Values;
      assert t.names[path] in s.names.Values;
    }
    forall other | other in t.sinks ensures TrueSink(t, other, t.sinks[other]) {
      assert TrueSink(s, other, s.sinks[other]);
      NotOwned(unit, rotation.keep, other, 0);
    }
  }

  lemma {:induction false} ShiftedHistory(s: Store, t: Store, unit: string, keep: nat, n: nat)
    requires Path(unit, 0) !in t.names && n < keep
    requires forall i: nat | i < keep :: Content(t, Path(unit, i + 1)) == Content(s, Path(unit, i))
    ensures History(t, unit, n + 1) == History(s, unit, n)
  {
    hide Path;
    if n > 0 {
      ShiftedHistory(s, t, unit, keep, n - 1);
    }
  }

  ghost predicate IsSuffix(a: seq<Bytes>, b: seq<Bytes>)
  {
    |a| <= |b| && a == b[|b| - |a|..]
  }

  lemma SuffixOneMore(a: seq<Bytes>, b: seq<Bytes>, c: seq<Bytes>, x: Bytes)
    requires IsSuffix(a, b) && IsSuffix(c, a + [x])
    ensures IsSuffix(c, b + [x])
  {
    assert b + [x] == b[..|b| - |a|] + (a + [x]);
  }

  lemma SuffixPart(a: seq<Bytes>, b: seq<Bytes>)
    ensures IsSuffix(b, a + b)
  {
  }

  lemma RotateKeepsSuffix(s: Store, rotation: Rotation, unit: string)
    ensures IsSuffix(History(Rotate(s, rotation, unit), unit, rotation.keep), History(s, unit, rotation.keep))
    ensures rotation.keep > 0 ==>
              Size(History(Rotate(s, rotation, unit), unit, rotation.keep)) >= Size(Content(s, Path(unit, 0)))
  {
    hide Path;
    var t := Rotate(s, rotation, unit);
    RotateShiftsContent(s, rotation, unit);
    if rotation.keep > 0 {
      ShiftedHistory(s, t, unit, rotation.keep, rotation.keep - 1);
      SuffixPart(Content(s, Path(unit, rotation.keep)), History(t, unit, rotation.keep));
      LiveIsPart(s, unit, rotation.keep - 1);
    }
  }

  lemma {:induction false} LiveIsPart(s: Store, unit: string, n: nat)
    ensures Size(History(s, unit, n)) >= Size(Content(s, Path(unit, 0)))
  {
    hide Path;
    var rest := if n == 0 then [] else History(s, unit, n - 1);
    SizeJoins(Content(s, Path(unit, n)), rest);
    if n > 0 {
      LiveIsPart(s, unit, n - 1);
    }
  }

  // ----- One record -----

  lemma {:induction false} HistoryOneMore(s: Store, t: Store, unit: string, n: nat, record: Bytes)
    requires Content(t, Path(unit, 0)) == Content(s, Path(unit, 0)) + [record]
    requires forall path | path != Path(unit, 0) :: Content(t, path) == Content(s, path)
    ensures History(t, unit, n) == History(s, unit, n) + [record]
  {
    hide Path;
    if n > 0 {
      HistoryOneMore(s, t, unit, n - 1, record);
      if Path(unit, n) == Path(unit, 0) {
        PathsAreDistinct(unit, n, unit, 0);
      }
      AppendInParts(Content(s, Path(unit, n)), History(s, unit, n - 1), [record]);
    }
  }

  lemma ReadyIsValid(s: Store, rotation: Rotation, unit: string, adding: nat)
    requires Valid(s)
    ensures Valid(Ready(s, rotation, unit, adding))
  {
    hide Valid, Open, Rotate, ShouldRotate;
    OpenIsValid(s, unit);
    var s := Open(s, unit);
    RotateIsValid(s, rotation, unit);
    OpenIsValid(s, unit);
    OpenIsValid(Rotate(s, rotation, unit), unit);
  }

  lemma ReadyKeepsSuffix(s: Store, rotation: Rotation, unit: string, adding: nat)
    requires Valid(s)
    ensures var t := Ready(s, rotation, unit, adding);
            && IsSuffix(History(t, unit, rotation.keep), History(s, unit, rotation.keep))
            && (rotation.keep == 0 || History(t, unit, rotation.keep) == History(s, unit, rotation.keep)
                || Size(History(t, unit, rotation.keep)) + adding > rotation.maxSize)
  {
    hide Open, Rotate, History, Path;
    OpenIsValid(s, unit);
    var o := Open(s, unit);
    SameHistory(s, o, unit, rotation.keep);
    if ShouldRotate(rotation, o.sinks[unit].size, adding) {
      assert TrueSink(o, unit, o.sinks[unit]);
      RotateIsValid(o, rotation, unit);
      RotateKeepsSuffix(o, rotation, unit);
      OpenIsValid(Rotate(o, rotation, unit), unit);
      SameHistory(Rotate(o, rotation, unit), Open(Rotate(o, rotation, unit), unit), unit, rotation.keep);
    } else {
      OpenIsValid(o, unit);
      SameHistory(o, Open(o, unit), unit, rotation.keep);
    }
  }

  lemma RotateLeavesOthers(s: Store, rotation: Rotation, unit: string, other: string)
    requires other != unit
    ensures SameFiles(s, Rotate(s, rotation, unit), other)
  {
    hide Path;
    RotateShiftsContent(s, rotation, unit);
    forall i: nat ensures Content(Rotate(s, rotation, unit), Path(other, i)) == Content(s, Path(other, i)) {
      NotOwned(unit, rotation.keep, other, i);
      assert Lookup(Rotate(s, rotation, unit).names, Path(other, i)) == Lookup(s.names, Path(other, i));
    }
  }

  lemma ReadyLeavesOthers(s: Store, rotation: Rotation, unit: string, adding: nat, other: string)
    requires Valid(s) && other != unit
    ensures SameFiles(s, Ready(s, rotation, unit, adding), other)
  {
    hide Valid, Open, Rotate, Path, Content, ShouldRotate;
    OpenIsValid(s, unit);
    var o := Open(s, unit);
    RotateIsValid(o, rotation, unit);
    OpenIsValid(o, unit);
    OpenIsValid(Rotate(o, rotation, unit), unit);
    RotateLeavesOthers(o, rotation, unit, other);
  }

  /**
   * Writing one record drops at most the oldest of a unit's records, adds the new one last, and leaves every
   * other unit's alone.
   */
  lemma WriteExtendsLog(s: Store, rotation: Rotation, unit: string, record: Bytes)
    requires Valid(s) && record != []
    ensures var t := Write(s, rotation, unit, record);
            && Valid(t)
            && IsSuffix(History(t, unit, rotation.keep), History(s, unit, rotation.keep) + [record])
            && Content(t, Path(unit, 0)) != [] && Content(t, Path(unit, 0))[|Content(t, Path(unit, 0))| - 1] == record
            && (rotation.keep == 0 || History(t, unit, rotation.keep) == History(s, unit, rotation.keep) + [record]
                || Size(History(t, unit, rotation.keep)) > rotation.maxSize)
  {
    hide Valid, Open, Rotate, ShouldRotate, Append, History, Path;
    var r := Ready(s, rotation, unit, |record|);
    ReadyIsValid(s, rotation, unit, |record|);
    ReadyKeepsSuffix(s, rotation, unit, |record|);
    AppendIsValid(r, unit, record);
    var t := Append(r, unit, record);
    HistoryOneMore(r, t, unit, rotation.keep, record);
    SizeOneMore(History(r, unit, rotation.keep), record);
    SuffixOneMore(
      History(r, unit, rotation.keep), History(s, unit, rotation.keep), History(t, unit, rotation.keep), record);
  }

  lemma WriteLeavesOthers(s: Store, rotation: Rotation, unit: string, record: Bytes, other: string)
    requires Valid(s) && record != [] && other != unit
    ensures SameFiles(s, Write(s, rotation, unit, record), other)
  {
    hide Valid, Open, Rotate, ShouldRotate, Append, Path, Content;
    var r := Ready(s, rotation, unit, |record|);
    ReadyIsValid(s, rotation, unit, |record|);
    ReadyLeavesOthers(s, rotation, unit, |record|, other);
    AppendIsValid(r, unit, record);
    forall i: nat ensures Content(s, Path(other, i)) == Content(Write(s, rotation, unit, record), Path(other, i)) {
      if Path(other, i) == Path(unit, 0) {
        PathsAreDistinct(other, i, unit, 0);
      }
    }
  }
}
