/** What rotation may cost: nothing, until every generation is full. */
module LogLoss {
  import opened Names
  import opened Numbers
  import opened Splitting
  import opened LogFiles
  import opened LogStore
  import opened LogRuns

  function Generation(s: Store, unit: string, i: nat): seq<Bytes>
  {
    Content(s, Path(unit, i))
  }

  /** No gap among the generations, and each older file together with the record that closed it is over the limit. */
  ghost predicate Packed(s: Store, unit: string, rotation: Rotation)
  {
    forall i: nat | i < rotation.keep && Generation(s, unit, i + 1) != [] ::
      Generation(s, unit, i) != [] && Size(Generation(s, unit, i + 1)) + |Generation(s, unit, i)[0]| > rotation.maxSize
  }

  /** Every generation that may be kept is. */
  ghost predicate Full(s: Store, unit: string, keep: nat)
  {
    forall i: nat | i <= keep :: Generation(s, unit, i) != []
  }

  /** `t` is `s` with every generation one older, which the next record did not fit in. */
  ghost predicate MadeRoom(s: Store, t: Store, unit: string, rotation: Rotation, adding: nat)
  {
    && Generation(t, unit, 0) == []
    && (forall i: nat | i < rotation.keep :: Generation(t, unit, i + 1) == Generation(s, unit, i))
    && Size(Generation(s, unit, 0)) + adding > rotation.maxSize
    && History(s, unit, rotation.keep) == Generation(s, unit, rotation.keep) + History(t, unit, rotation.keep)
  }

  lemma SinkIsTrue(s: Store, unit: string)
    requires Valid(s) && unit in s.sinks
    ensures TrueSink(s, unit, s.sinks[unit])
  {
  }

  /** Shifting every generation one older drops the oldest and nothing else. */
  lemma ShiftDropsOldest(s: Store, t: Store, unit: string, keep: nat)
    requires Path(unit, 0) !in t.names
    requires forall i: nat | i < keep :: Content(t, Path(unit, i + 1)) == Content(s, Path(unit, i))
    ensures History(s, unit, keep) == Generation(s, unit, keep) + History(t, unit, keep)
  {
    hide Path;
    if keep == 0 {
      AppendNothing(Generation(s, unit, 0));
    } else {
      ShiftedHistory(s, t, unit, keep, keep - 1);
    }
  }

  lemma RotateMakesRoom(s: Store, rotation: Rotation, unit: string, adding: nat)
    requires Valid(s) && unit in s.sinks && ShouldRotate(rotation, s.sinks[unit].size, adding)
    ensures MadeRoom(s, Rotate(s, rotation, unit), unit, rotation, adding)
  {
    hide Path, Rotate, Valid, History;
    var t := Rotate(s, rotation, unit);
    SinkIsTrue(s, unit);
    assert TrueSink(s, unit, s.sinks[unit]);
    RotateShiftsContent(s, rotation, unit);
    ShiftDropsOldest(s, t, unit, rotation.keep);
  }

  lemma ReadyMakesRoom(s: Store, rotation: Rotation, unit: string, adding: nat)
    requires Valid(s)
    ensures var t := Ready(s, rotation, unit, adding);
            SameFiles(s, t, unit) || MadeRoom(s, t, unit, rotation, adding)
  {
    hide Open, Rotate, Path, Content, ShouldRotate, Valid, History;
    OpenIsValid(s, unit);
    var o := Open(s, unit);
    OpenIsValid(o, unit);
    if ShouldRotate(rotation, o.sinks[unit].size, adding) {
      RotateMakesRoom(o, rotation, unit, adding);
      RotateIsValid(o, rotation, unit);
      var r := Rotate(o, rotation, unit);
      OpenIsValid(r, unit);
      SameHistory(s, o, unit, rotation.keep);
      SameHistory(r, Open(r, unit), unit, rotation.keep);
      RoomStays(s, o, r, Open(r, unit), unit, rotation, adding);
    }
  }

  lemma RoomStays(s: Store, o: Store, r: Store, t: Store, unit: string, rotation: Rotation, adding: nat)
    requires MadeRoom(o, r, unit, rotation, adding) && SameFiles(s, o, unit) && SameFiles(r, t, unit)
    requires History(s, unit, rotation.keep) == History(o, unit, rotation.keep)
    requires History(r, unit, rotation.keep) == History(t, unit, rotation.keep)
    ensures MadeRoom(s, t, unit, rotation, adding)
  {
    hide Path, Content, History, Size;
    assert forall i: nat :: Generation(s, unit, i) == Generation(o, unit, i);
    assert forall i: nat :: Generation(t, unit, i) == Generation(r, unit, i);
  }

  /** The record goes at the end of the live file, and nowhere else. */
  ghost predicate Appended(s: Store, t: Store, unit: string, record: Bytes)
  {
    && Generation(t, unit, 0) == Generation(s, unit, 0) + [record]
    && forall i: nat | i > 0 :: Generation(t, unit, i) == Generation(s, unit, i)
  }

  lemma AppendAppends(s: Store, unit: string, record: Bytes, keep: nat)
    requires Valid(s) && unit in s.sinks && record != []
    ensures var t := Append(s, unit, record);
            Appended(s, t, unit, record) && History(t, unit, keep) == History(s, unit, keep) + [record]
  {
    hide Append, Path, Content, History, Valid;
    AppendIsValid(s, unit, record);
    var t := Append(s, unit, record);
    HistoryOneMore(s, t, unit, keep, record);
    forall i: nat | i > 0 ensures Generation(t, unit, i) == Generation(s, unit, i) {
      if Path(unit, i) == Path(unit, 0) {
        PathsAreDistinct(unit, i, unit, 0);
      }
    }
  }

  lemma AppendingPacks(s: Store, r: Store, t: Store, unit: string, rotation: Rotation, record: Bytes)
    requires Packed(s, unit, rotation) && Appended(r, t, unit, record)
    requires SameFiles(s, r, unit) || MadeRoom(s, r, unit, rotation, |record|)
    ensures Packed(t, unit, rotation) && (Full(s, unit, rotation.keep) ==> Full(t, unit, rotation.keep))
    ensures MadeRoom(s, r, unit, rotation, |record|) && Generation(s, unit, rotation.keep) != [] ==>
              Full(t, unit, rotation.keep)
  {
    hide History, Path, Content, Size;
    if SameFiles(s, r, unit) {
      assert forall i: nat :: Generation(r, unit, i) == Generation(s, unit, i);
    } else {
      forall i: nat | i < rotation.keep && Generation(t, unit, i + 1) != []
        ensures Generation(t, unit, i) != []
        ensures Size(Generation(t, unit, i + 1)) + |Generation(t, unit, i)[0]| > rotation.maxSize
      {
        assert Generation(t, unit, i + 1) == Generation(r, unit, i + 1) == Generation(s, unit, i);
        if i > 0 {
          assert Generation(r, unit, (i - 1) + 1) == Generation(s, unit, i - 1);
        }
      }
    }
    if MadeRoom(s, r, unit, rotation, |record|) && Generation(s, unit, rotation.keep) != [] {
      PackedDown(s, unit, rotation, rotation.keep);
      forall i: nat | i <= rotation.keep ensures Generation(t, unit, i) != [] {
        if i > 0 {
          assert Generation(r, unit, (i - 1) + 1) == Generation(s, unit, i - 1);
        }
      }
    }
  }

  lemma {:induction false} PackedDown(s: Store, unit: string, rotation: Rotation, n: nat)
    requires Packed(s, unit, rotation) && n <= rotation.keep && Generation(s, unit, n) != []
    ensures forall i: nat | i <= n :: Generation(s, unit, i) != []
  {
    hide Generation;
    if n > 0 {
      PackedDown(s, unit, rotation, n - 1);
    }
  }

  /** One write: nothing is lost, or every generation is there. */
  lemma WritePacks(s: Store, rotation: Rotation, unit: string, record: Bytes)
    requires Valid(s) && record != [] && Packed(s, unit, rotation)
    ensures var t := Write(s, rotation, unit, record);
            && Packed(t, unit, rotation) && (Full(s, unit, rotation.keep) ==> Full(t, unit, rotation.keep))
            && (History(t, unit, rotation.keep) == History(s, unit, rotation.keep) + [record]
                || Full(t, unit, rotation.keep))
  {
    hide Valid, Ready, Append, Packed, Full, History, Appended;
    var r := Ready(s, rotation, unit, |record|);
    ReadyIsValid(s, rotation, unit, |record|);
    ReadyMakesRoom(s, rotation, unit, |record|);
    AppendAppends(r, unit, record, rotation.keep);
    AppendingPacks(s, r, Append(r, unit, record), unit, rotation, record);
    if SameFiles(s, r, unit) {
      SameHistory(s, r, unit, rotation.keep);
    } else if Generation(s, unit, rotation.keep) == [] {
      AppendNothing(History(r, unit, rotation.keep));
    }
  }

  lemma SamePacked(s: Store, t: Store, unit: string, rotation: Rotation)
    requires SameFiles(s, t, unit) && Packed(s, unit, rotation)
    ensures Packed(t, unit, rotation) && (Full(s, unit, rotation.keep) ==> Full(t, unit, rotation.keep))
  {
    hide Path, Content, Size;
    assert forall i: nat :: Generation(t, unit, i) == Generation(s, unit, i);
  }

  lemma StepPacks(s: Store, rotation: Rotation, e: Entry, unit: string)
    requires Valid(s) && e.record != [] && Packed(s, unit, rotation)
    ensures var t := Write(s, rotation, e.unit, e.record);
            && Packed(t, unit, rotation) && (Full(s, unit, rotation.keep) ==> Full(t, unit, rotation.keep))
            && (History(t, unit, rotation.keep) ==
                  History(s, unit, rotation.keep) + (if e.unit == unit then [e.record] else [])
                || Full(t, unit, rotation.keep))
  {
    hide Valid, Write, Packed, Full, History, SameFiles;
    if e.unit == unit {
      WritePacks(s, rotation, unit, e.record);
    } else {
      var t := Write(s, rotation, e.unit, e.record);
      WriteLeavesOthers(s, rotation, e.unit, e.record, unit);
      SamePacked(s, t, unit, rotation);
      SameHistory(s, t, unit, rotation.keep);
      AppendNothing(History(s, unit, rotation.keep));
    }
  }

  /**
   * A unit's log is whole, or every generation that may be kept is there and any two neighbours, the newer one's first
   * record standing for it, hold more than one file may: rotation drops a record only when there is that much after it.
   */
  lemma {:induction false} LossNeedsFullFiles(s: Store, rotation: Rotation, entries: seq<Entry>, unit: string)
    requires Valid(s) && Written(entries) && Packed(s, unit, rotation)
    ensures var t := WriteAll(s, rotation, entries);
            && Packed(t, unit, rotation)
            && (History(t, unit, rotation.keep) == History(s, unit, rotation.keep) + Only(entries, unit)
                || Full(t, unit, rotation.keep))
  {
    hide Valid, Write, Packed, Full, History;
    var whole := History(s, unit, rotation.keep);
    if entries == [] {
      AppendNothing(whole);
    } else {
      var n := |entries| - 1;
      LossNeedsFullFiles(s, rotation, entries[..n], unit);
      RunIsValid(s, rotation, entries[..n]);
      StepPacks(WriteAll(s, rotation, entries[..n]), rotation, entries[n], unit);
      AppendInParts(whole, Only(entries[..n], unit), if entries[n].unit == unit then [entries[n].record] else []);
    }
  }

  // ----- From nothing -----

  const EMPTY := Store(map[], map[], map[], 0)

  lemma NothingIsValid(maxSize: nat)
    ensures Valid(EMPTY) && AllFit(EMPTY, maxSize) && forall path :: Content(EMPTY, path) == []
  {
  }

  lemma {:induction false} NothingWasSaid(unit: string, n: nat)
    ensures History(EMPTY, unit, n) == []
  {
    hide Path;
    if n > 0 {
      NothingWasSaid(unit, n - 1);
    }
  }

  /**
   * From an empty directory nothing is assumed: the log is everything the unit said, or every generation that may be
   * kept is there and full.
   */
  lemma LossFromNothing(rotation: Rotation, entries: seq<Entry>, unit: string)
    requires Written(entries)
    ensures var t := WriteAll(EMPTY, rotation, entries);
            && Packed(t, unit, rotation)
            && (History(t, unit, rotation.keep) == Only(entries, unit) || Full(t, unit, rotation.keep))
  {
    hide WriteAll, Valid, Full, History;
    NothingIsValid(rotation.maxSize);
    NothingWasSaid(unit, rotation.keep);
    LossNeedsFullFiles(EMPTY, rotation, entries, unit);
    assert [] + Only(entries, unit) == Only(entries, unit);
  }

  // ----- The limit at its largest -----

  /** A record as the shipper makes it: a stamp, and a line no longer than a splitter ever emits. */
  ghost predicate IsShipped(record: Bytes)
  {
    exists at: Timestamp, line: Bytes ::
      NEWLINE !in line && |line| < MAX_LINE + READ_SIZE && record == Record(at, line)
  }

  ghost predicate Shipped(entries: seq<Entry>)
  {
    forall i | 0 <= i < |entries| :: IsShipped(entries[i].record)
  }

  lemma ShippedIsWritten(entries: seq<Entry>)
    requires Shipped(entries)
    ensures Written(entries)
  {
    hide Record;
    forall i | 0 <= i < |entries| ensures entries[i].record != [] {
      assert IsShipped(entries[i].record);
      var at, line :| NEWLINE !in line && |line| < MAX_LINE + READ_SIZE && entries[i].record == Record(at, line);
      RecordIsOneLine(at, line);
    }
  }

  ghost predicate KeepsLimit(rotation: Rotation)
  {
    forall s, entries | Valid(s) && Shipped(entries) && AllFit(s, rotation.maxSize) ::
      AllFit(WriteAll(s, rotation, entries), rotation.maxSize)
  }

  /** A size limit, a 64-bit number, is kept by every run exactly when it is below the largest there is. */
  lemma LimitIsKeptExactlyBelowLargest(rotation: Rotation)
    requires rotation.maxSize <= U64_MAX
    ensures KeepsLimit(rotation) <==> rotation.maxSize < U64_MAX
  {
    hide Valid, Shipped, Written, AllFit, WriteAll;
    if rotation.maxSize < U64_MAX {
      forall s, entries | Valid(s) && Shipped(entries) && AllFit(s, rotation.maxSize)
        ensures AllFit(WriteAll(s, rotation, entries), rotation.maxSize)
      {
        ShippedIsWritten(entries);
        FilesStayWithinLimit(s, rotation, entries);
      }
    } else {
      LargestOverflows(rotation);
    }
  }

  const SMALL := Record(Timestamp(0, 0), [])

  /** The same short line, `n` times. */
  function Copies(n: nat): (entries: seq<Entry>)
    ensures |entries| == n
  {
    if n == 0 then [] else Copies(n - 1) + [Entry("", SMALL)]
  }

  lemma {:induction false} CopiesAreShipped(n: nat)
    ensures Shipped(Copies(n))
  {
    hide Record;
    if n > 0 {
      CopiesAreShipped(n - 1);
      assert SMALL == Record(Timestamp(0, 0), []);
    }
  }

  /** At the largest limit nothing is ever rotated away, so every copy lands in the one live file. */
  lemma {:induction false} CopiesPileUp(rotation: Rotation, n: nat)
    requires rotation.maxSize == U64_MAX
    ensures var t := WriteAll(EMPTY, rotation, Copies(n)); var live := Content(t, Path("", 0));
            Valid(t) && (n > 0 ==> Path("", 0) in t.names) && |live| == n && Size(live) >= n
  {
    hide Path, Write, WriteAll, Copies, Valid, Record, Content, Size;
    if n == 0 {
      NothingIsValid(rotation.maxSize);
      NoCopies(rotation);
    } else {
      var s := WriteAll(EMPTY, rotation, Copies(n - 1));
      CopiesPileUp(rotation, n - 1);
      RecordIsOneLine(Timestamp(0, 0), []);
      NeverMakesRoom(s, rotation, "", SMALL);
      SizeOneMore(Content(s, Path("", 0)), SMALL);
      OneMoreCopy(rotation, n);
    }
  }

  lemma NoCopies(rotation: Rotation)
    ensures WriteAll(EMPTY, rotation, Copies(0)) == EMPTY
  {
  }

  lemma OneMoreCopy(rotation: Rotation, n: nat)
    requires n > 0
    ensures WriteAll(EMPTY, rotation, Copies(n)) ==
            Write(WriteAll(EMPTY, rotation, Copies(n - 1)), rotation, "", SMALL)
  {
    hide Write, Record;
    assert Copies(n)[..n - 1] == Copies(n - 1);
  }

  /** More short lines than the limit has bytes, into an empty directory. */
  lemma LargestOverflows(rotation: Rotation)
    requires rotation.maxSize == U64_MAX
    ensures !KeepsLimit(rotation)
  {
    hide Path, Write, WriteAll, Copies, Valid, Shipped, Content;
    var n: nat := U64_MAX + 1;
    NothingIsValid(rotation.maxSize);
    CopiesAreShipped(n);
    CopiesPileUp(rotation, n);
    var t := WriteAll(EMPTY, rotation, Copies(n));
    assert Path("", 0) in t.names;
    assert !AllFit(t, rotation.maxSize);
  }

  lemma NeverMakesRoom(s: Store, rotation: Rotation, unit: string, record: Bytes)
    requires Valid(s) && record != [] && rotation.maxSize == U64_MAX
    ensures var t := Write(s, rotation, unit, record);
            Valid(t) && Path(unit, 0) in t.names && Content(t, Path(unit, 0)) == Content(s, Path(unit, 0)) + [record]
  {
    hide Valid, Open, Path, Append, Content;
    OpenIsValid(s, unit);
    var o := Open(s, unit);
    OpenIsValid(o, unit);
    AppendIsValid(Open(o, unit), unit, record);
  }
}
