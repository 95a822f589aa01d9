/** Unit names and the order Rust's `BTreeMap` and `BTreeSet` walk them in. */
module Names {
  type Name = string

  /** Lexicographic order on code points. */
  predicate Leq(a: Name, b: Name)
  {
    a == [] || (b != [] && (a[0] < b[0] || (a[0] == b[0] && Leq(a[1..], b[1..]))))
  }

  lemma {:induction false} LeqTotal(a: Name, b: Name)
    ensures Leq(a, b) || Leq(b, a)
  {
    if a != [] && b != [] && a[0] == b[0] {
      LeqTotal(a[1..], b[1..]);
    }
  }

  lemma {:induction false} LeqAntisymmetric(a: Name, b: Name)
    requires Leq(a, b) && Leq(b, a)
    ensures a == b
  {
    if a != [] {
      LeqAntisymmetric(a[1..], b[1..]);
      assert a == [a[0]] + a[1..] && b == [b[0]] + b[1..];
    }
  }

  lemma {:induction false} LeqTransitive(a: Name, b: Name, c: Name)
    requires Leq(a, b) && Leq(b, c)
    ensures Leq(a, c)
  {
    if a != [] && a[0] == b[0] && b[0] == c[0] {
      LeqTransitive(a[1..], b[1..], c[1..]);
    }
  }

  predicate IsLeast(x: Name, s: set<Name>)
  {
    x in s && forall y | y in s :: Leq(x, y)
  }

  lemma {:induction false} LeastExists(s: set<Name>)
    requires s != {}
    ensures exists x :: IsLeast(x, s)
  {
    var x :| x in s;
    if s == {x} {
      LeqTotal(x, x);
      assert IsLeast(x, s);
    } else {
      var rest := s - {x};
      assert s == rest + {x};
      LeastExists(rest);
      var y :| IsLeast(y, rest);
      LeqTotal(x, y);
      LeqTotal(x, x);
      if Leq(x, y) {
        forall z | z in s ensures Leq(x, z) {
          if z != x { LeqTransitive(x, y, z); }
        }
        assert IsLeast(x, s);
      } else {
        assert IsLeast(y, s);
      }
    }
  }

  lemma LeastIsUnique(x: Name, y: Name, s: set<Name>)
    requires IsLeast(x, s) && IsLeast(y, s)
    ensures x == y
  {
    LeqAntisymmetric(x, y);
  }

  function Least(s: set<Name>): (x: Name)
    requires s != {}
    ensures IsLeast(x, s)
  {
    LeastExists(s);
    assert forall x, y | IsLeast(x, s) && IsLeast(y, s) :: x == y by {
      forall x, y | IsLeast(x, s) && IsLeast(y, s) ensures x == y { LeastIsUnique(x, y, s); }
    }
    var x :| x in s && IsLeast(x, s);
    x
  }

  predicate Distinct<T(==)>(q: seq<T>)
  {
    forall i, j | 0 <= i < j < |q| :: q[i] != q[j]
  }

  function IndexOf(q: seq<Name>, n: Name): (i: nat)
    requires n in q
    ensures i < |q| && q[i] == n && n !in q[..i]
  {
    if q[0] == n then 0 else IndexOf(q[1..], n) + 1
  }

  lemma TakeOneMore<T>(q: seq<T>, i: nat)
    requires i < |q|
    ensures q[..i + 1] == q[..i] + [q[i]]
  {
  }

  lemma TakeAll<T>(q: seq<T>)
    ensures q[..|q|] == q
  {
  }

  lemma LastOff<T>(q: seq<T>)
    requires q != []
    ensures q == q[..|q| - 1] + [q[|q| - 1]]
  {
  }

  lemma AppendNothing<T>(q: seq<T>)
    ensures q + [] == q && [] + q == q
  {
  }

  lemma AppendInParts<T>(q: seq<T>, r: seq<T>, s: seq<T>)
    ensures q + r + s == q + (r + s)
  {
  }

  /** Moving the head of the second part to the end of the first. */
  lemma MoveHead<T>(q: seq<T>, r: seq<T>)
    requires r != []
    ensures (q + r)[..|q|] == q && (q + r)[|q|] == r[0] && (q + r)[..|q| + 1] == q + [r[0]]
    ensures q + [r[0]] + r[1..] == q + r
  {
  }

  /** The members of a set in the order a `BTreeSet` yields them. */
  function Sorted(s: set<Name>): (q: seq<Name>)
    ensures |q| == |s|
    ensures forall x :: x in q <==> x in s
    ensures Distinct(q)
    ensures forall i, j | 0 <= i < j < |q| :: Leq(q[i], q[j])
  {
    if s == {} then []
    else
      var x := Least(s);
      var rest := Sorted(s - {x});
      [x] + rest
  }

  /** `retain(|queued| queued != name)`. */
  function Without(q: seq<Name>, name: Name): (r: seq<Name>)
    ensures |r| <= |q|
    ensures name in q ==> |r| < |q|
    ensures forall x :: x in r <==> x in q && x != name
  {
    if q == [] then []
    else if q[0] == name then Without(q[1..], name)
    else [q[0]] + Without(q[1..], name)
  }
}
