/** Where a unit's log lives, what a record in it looks like, and what a rotation moves. */
module LogFiles {
  import opened Names
  import opened Numbers
  import opened Wrappers
  import opened Splitting

  // ----- Numbers as text -----

  function Digit(n: nat): (c: char)
    requires n < 10
    ensures '0' <= c <= '9'
  {
    '0' + n as char
  }

  function Decimal(n: nat): (s: string)
    ensures s != [] && forall i | 0 <= i < |s| :: '0' <= s[i] <= '9'
  {
    if n < 10 then [Digit(n)] else Decimal(n / 10) + [Digit(n % 10)]
  }

  lemma {:induction false} DecimalIsInjective(a: nat, b: nat)
    requires Decimal(a) == Decimal(b)
    ensures a == b
  {
    var s, t := Decimal(a), Decimal(b);
    if a >= 10 && b >= 10 {
      assert s[..|s| - 1] == Decimal(a / 10) && t[..|t| - 1] == Decimal(b / 10);
      DecimalIsInjective(a / 10, b / 10);
      assert s[|s| - 1] == t[|t| - 1];
    }
  }

  // ----- Names of files -----

  /** The live file is generation 0; generation `i` is the `i`th oldest rotation away from it. */
  function Path(unit: string, i: nat): string
  {
    if i == 0 then unit + ".log" else unit + ".log" + "." + Decimal(i)
  }

  /** However many digits follow, the last dot is where the generation begins. */
  lemma LastDotAgrees(a: string, b: string, x: string, y: string)
    requires a + "." + x == b + "." + y
    requires forall i | 0 <= i < |x| :: x[i] != '.'
    requires forall i | 0 <= i < |y| :: y[i] != '.'
    ensures a == b && x == y
  {
    var s := a + "." + x;
    assert s[|a|] == '.' && s[|b|] == '.';
    assert forall i | |a| < i < |s| :: s[i] == x[i - |a| - 1];
    assert forall i | |b| < i < |s| :: s[i] == y[i - |b| - 1];
    assert |a| == |b|;
    assert a == s[..|a|] && b == s[..|b|];
    assert x == s[|a| + 1..] && y == s[|b| + 1..];
  }

  /** A live name ends in a letter and a generation's in a digit, so the two kinds never meet. */
  lemma LastCharacter(unit: string, i: nat)
    ensures Path(unit, i) != []
    ensures i == 0 ==> Path(unit, i)[|Path(unit, i)| - 1] == 'g'
    ensures i > 0 ==> '0' <= Path(unit, i)[|Path(unit, i)| - 1] <= '9'
  {
    if i > 0 {
      var d := Decimal(i);
      assert Path(unit, i)[|Path(unit, i)| - 1] == d[|d| - 1];
    }
  }

  /** No file belongs to two units, or to one unit twice, dots in names notwithstanding. */
  lemma PathsAreDistinct(u: string, i: nat, v: string, j: nat)
    requires Path(u, i) == Path(v, j)
    ensures u == v && i == j
  {
    LastCharacter(u, i);
    LastCharacter(v, j);
    if i == 0 {
      var s := Path(u, 0);
      assert u == s[..|s| - 4] && v == s[..|s| - 4];
    } else {
      LastDotAgrees(u + ".log", v + ".log", Decimal(i), Decimal(j));
      DecimalIsInjective(i, j);
      PathsAreDistinct(u, 0, v, 0);
    }
  }

  // ----- Records -----

  datatype Timestamp = Timestamp(secs: nat, micros: nat)

  /** Six digits, padded. */
  function Six(micros: nat): (s: string)
    ensures NEWLINE !in s
  {
    var digits := Decimal(micros);
    if |digits| >= 6 then digits else seq(6 - |digits|, _ => '0') + digits
  }

  function Record(at: Timestamp, line: Bytes): Bytes
  {
    Decimal(at.secs) + "." + Six(at.micros) + " " + line + [NEWLINE]
  }

  lemma RecordIsOneLine(at: Timestamp, line: Bytes)
    requires NEWLINE !in line
    ensures var r := Record(at, line); r != [] && r[|r| - 1] == NEWLINE && NEWLINE !in r[..|r| - 1]
    ensures var r := Record(at, line); |line| < |r| && r[|r| - 1 - |line|..|r| - 1] == line
  {
    var head := Decimal(at.secs) + "." + Six(at.micros) + " ";
    assert NEWLINE !in head;
    assert Record(at, line)[..|head + line|] == head + line;
    assert Record(at, line)[|head|..|head + line|] == line;
  }

  // ----- Rotation -----

  datatype Rotation = Rotation(maxSize: nat, keep: nat)

  function Saturated(n: nat): nat
  {
    if n > U64_MAX then U64_MAX else n
  }

  predicate ShouldRotate(rotation: Rotation, current: nat, adding: nat)
  {
    current > 0 && Saturated(current + adding) > rotation.maxSize
  }

  /**
   * At the largest limit there is, the saturating sum never exceeds it and nothing is ever rotated; below it,
   * something is.
   */
  lemma LargestLimitNeverRotates(rotation: Rotation)
    ensures (exists current: nat, adding: nat :: ShouldRotate(rotation, current, adding)) <==>
              rotation.maxSize < U64_MAX
  {
    if rotation.maxSize < U64_MAX {
      assert ShouldRotate(rotation, 1, U64_MAX);
    }
  }

  datatype Move = Remove(path: string) | Rename(from: string, to: string)

  /** Generation `n` and everything newer, each moved one older, oldest first. */
  function Shifts(unit: string, n: nat): seq<Move>
  {
    [Rename(Path(unit, n), Path(unit, n + 1))] + if n == 0 then [] else Shifts(unit, n - 1)
  }

  function PlanOf(unit: string, keep: nat): seq<Move>
  {
    if keep == 0 then [Remove(Path(unit, 0))] else [Remove(Path(unit, keep))] + Shifts(unit, keep - 1)
  }

  lemma PlanStarts(unit: string, keep: nat)
    ensures PlanOf(unit, keep) ==
            if keep == 0 then [Remove(Path(unit, 0))] else [Remove(Path(unit, keep))] + Shifts(unit, keep - 1)
  {
  }

  lemma ShiftsStart(unit: string, n: nat)
    ensures Shifts(unit, n) ==
            if n == 0 then [Rename(Path(unit, 0), Path(unit, 1))]
            else [Rename(Path(unit, n), Path(unit, n + 1))] + Shifts(unit, n - 1)
  {
    AppendNothing([Rename(Path(unit, 0), Path(unit, 1))]);
  }

  method Plan(rotation: Rotation, unit: string) returns (moves: seq<Move>)
    ensures moves == PlanOf(unit, rotation.keep)
  {
    hide Path, Shifts, PlanOf;
    PlanStarts(unit, rotation.keep);
    var live := Path(unit, 0);
    if rotation.keep == 0 {
      return [Remove(live)];
    }
    moves := [Remove(Path(unit, rotation.keep))];
    var n: nat := rotation.keep - 1;
    while n > 0
      invariant n < rotation.keep
      invariant moves + Shifts(unit, n) == PlanOf(unit, rotation.keep)
    {
      ShiftsStart(unit, n);
      AppendInParts(moves, [Rename(Path(unit, n), Path(unit, n + 1))], Shifts(unit, n - 1));
      moves := moves + [Rename(Path(unit, n), Path(unit, n + 1))];
      n := n - 1;
    }
    ShiftsStart(unit, 0);
    moves := moves + [Rename(live, Path(unit, 1))];
  }

  // ----- A directory -----

  /** Which file, by inode, each name leads to. */
  type Directory = map<string, nat>

  function Lookup(d: Directory, path: string): Option<nat>
  {
    if path in d then Some(d[path]) else None
  }

  /** Moving what is not there is an error the rotation ignores. */
  function Apply(d: Directory, m: Move): Directory
  {
    match m
    case Remove(path) => d - {path}
    case Rename(from, to) => if from in d then (d - {from})[to := d[from]] else d
  }

  function ApplyAll(d: Directory, moves: seq<Move>): Directory
    decreases |moves|
  {
    if moves == [] then d else ApplyAll(Apply(d, moves[0]), moves[1..])
  }

  predicate Owns(unit: string, n: nat, path: string)
  {
    exists i: nat :: i <= n && path == Path(unit, i)
  }

  /** Every file one generation older, the live name free, and no other name touched. */
  ghost predicate Shifted(d: Directory, e: Directory, unit: string, n: nat)
  {
    && Path(unit, 0) !in e
    && (forall i: nat | i < n :: Lookup(e, Path(unit, i + 1)) == Lookup(d, Path(unit, i)))
    && (forall path | !Owns(unit, n, path) :: Lookup(e, path) == Lookup(d, path))
  }

  lemma RenameShifts(d: Directory, unit: string, n: nat)
    requires Path(unit, n + 1) !in d
    ensures var e := Apply(d, Rename(Path(unit, n), Path(unit, n + 1)));
            && Path(unit, n) !in e && Lookup(e, Path(unit, n + 1)) == Lookup(d, Path(unit, n))
            && forall path | path != Path(unit, n) && path != Path(unit, n + 1) :: Lookup(e, path) == Lookup(d, path)
  {
    if Path(unit, n) == Path(unit, n + 1) {
      PathsAreDistinct(unit, n, unit, n + 1);
    }
  }

  lemma {:induction false} ShiftsShift(d: Directory, unit: string, n: nat)
    requires Path(unit, n + 1) !in d
    ensures Shifted(d, ApplyAll(d, Shifts(unit, n)), unit, n + 1)
    decreases n
  {
    hide Apply, Path, Lookup;
    var e := Apply(d, Rename(Path(unit, n), Path(unit, n + 1)));
    RenameShifts(d, unit, n);
    var rest := if n == 0 then [] else Shifts(unit, n - 1);
    assert Shifts(unit, n)[1..] == rest;
    var f := ApplyAll(d, Shifts(unit, n));
    assert f == ApplyAll(e, rest);
    if n == 0 {
      assert f == e;
      EachOwns(unit, 1);
    } else {
      ShiftsShift(e, unit, n - 1);
      ShiftJoins(d, e, f, unit, n);
    }
  }

  lemma EachOwns(unit: string, n: nat)
    ensures forall i: nat | i <= n :: Owns(unit, n, Path(unit, i))
  {
  }

  lemma ShiftJoins(d: Directory, e: Directory, f: Directory, unit: string, n: nat)
    requires n > 0 && Shifted(e, f, unit, n)
    requires Lookup(e, Path(unit, n + 1)) == Lookup(d, Path(unit, n))
    requires forall path | path != Path(unit, n) && path != Path(unit, n + 1) :: Lookup(e, path) == Lookup(d, path)
    ensures Shifted(d, f, unit, n + 1)
  {
    hide Path, Lookup;
    forall i: nat | i < n + 1 ensures Lookup(f, Path(unit, i + 1)) == Lookup(d, Path(unit, i)) {
      if i == n {
        if j: nat :| j <= n && Path(unit, n + 1) == Path(unit, j) {
          PathsAreDistinct(unit, n + 1, unit, j);
        }
        assert !Owns(unit, n, Path(unit, n + 1));
      } else if Path(unit, i) == Path(unit, n) {
        PathsAreDistinct(unit, i, unit, n);
      } else if Path(unit, i) == Path(unit, n + 1) {
        PathsAreDistinct(unit, i, unit, n + 1);
      }
    }
    forall path | !Owns(unit, n + 1, path) ensures Lookup(f, path) == Lookup(d, path) {
      assert path != Path(unit, n) && path != Path(unit, n + 1);
      OwnsMore(unit, n, path);
    }
  }

  lemma OwnsMore(unit: string, n: nat, path: string)
    ensures Owns(unit, n, path) ==> Owns(unit, n + 1, path)
  {
  }

  /**
   * A rotation frees the live name by moving every generation one older and dropping the oldest; it touches
   * nothing else.
   */
  lemma PlanShifts(d: Directory, unit: string, keep: nat)
    ensures Shifted(d, ApplyAll(d, PlanOf(unit, keep)), unit, keep)
  {
    var first := Remove(Path(unit, keep));
    var e := Apply(d, first);
    assert PlanOf(unit, keep)[0] == first;
    if keep == 0 {
      assert PlanOf(unit, keep)[1..] == [];
      assert Owns(unit, 0, Path(unit, 0));
    } else {
      assert PlanOf(unit, keep)[1..] == Shifts(unit, keep - 1);
      ShiftsShift(e, unit, keep - 1);
      RemovingFirst(d, e, ApplyAll(e, Shifts(unit, keep - 1)), unit, keep);
    }
  }

  lemma RemovingFirst(d: Directory, e: Directory, f: Directory, unit: string, keep: nat)
    requires e == d - {Path(unit, keep)} && Shifted(e, f, unit, keep)
    ensures Shifted(d, f, unit, keep)
  {
    forall i: nat | i < keep ensures Lookup(e, Path(unit, i)) == Lookup(d, Path(unit, i)) {
      if Path(unit, i) == Path(unit, keep) {
        PathsAreDistinct(unit, i, unit, keep);
      }
    }
    assert Owns(unit, keep, Path(unit, keep));
  }

  /** Names lead to different files, before a move and after it; a move makes no new ones. */
  predicate OneNameEach(d: Directory)
  {
    forall p, q | p in d && q in d && p != q :: d[p] != d[q]
  }

  lemma {:induction false} MovesKeepNamesApart(d: Directory, moves: seq<Move>)
    requires OneNameEach(d)
    ensures OneNameEach(ApplyAll(d, moves))
    ensures ApplyAll(d, moves).Values <= d.Values
    decreases |moves|
  {
    if moves != [] {
      var e := Apply(d, moves[0]);
      assert e.Values <= d.Values;
      assert OneNameEach(e);
      MovesKeepNamesApart(e, moves[1..]);
    }
  }
}
