/** What a start plan has to be: the units it pulls in, and the edges that order them. */
module Graph {
  import opened Names
  import opened Units

  datatype Warning =
    | MissingWants(who: Name, missing: Name)
    | MissingOrdering(who: Name, missing: Name)

  datatype GraphError =
    | MissingRequires(who: Name, missing: Name)
    | NoDefault
    | Cycle(path: seq<Name>)
    | ConflictingRequired(a: Name, b: Name)
    | MissingSocketService(who: Name, missing: Name)
    | SocketServiceNotAService(who: Name, other: Name)

  datatype Plan = Plan(order: seq<Name>, warnings: seq<Warning>)

  type UnitSet = map<Name, Unit>

  // ----- What gets started -----

  /** `a` causes `b` to start. `after` and `before` do not. */
  predicate PullsIn(units: UnitSet, a: Name, b: Name)
  {
    a in units && b in units && (b in units[a].deps.needs || b in units[a].deps.wants)
  }

  ghost predicate ClosedFrom(units: UnitSet, root: Name, s: set<Name>)
  {
    root in s && forall a, b | a in s && PullsIn(units, a, b) :: b in s
  }

  /** In every set that holds the root and is closed under what its members pull in. */
  ghost predicate Required(units: UnitSet, root: Name, n: Name)
  {
    forall s: set<Name> | ClosedFrom(units, root, s) :: n in s
  }

  /** The least set holding the root and closed under `requires` and the `wants` that exist. */
  ghost function Closure(units: UnitSet, root: Name): set<Name>
  {
    set n | n in units && Required(units, root, n)
  }

  lemma ClosureIsLeast(units: UnitSet, root: Name)
    requires root in units
    ensures ClosedFrom(units, root, Closure(units, root))
    ensures forall s | ClosedFrom(units, root, s) :: Closure(units, root) <= s
  {
    var c := Closure(units, root);
    forall a, b | a in c && PullsIn(units, a, b) ensures b in c {
      forall s: set<Name> | ClosedFrom(units, root, s) ensures b in s {
        assert a in s;
      }
    }
  }

  lemma LeastIsClosure(units: UnitSet, root: Name, s: set<Name>)
    requires root in units && s <= units.Keys && ClosedFrom(units, root, s)
    requires forall n | n in s :: Required(units, root, n)
    ensures s == Closure(units, root)
  {
    ClosureIsLeast(units, root);
  }

  predicate NeedsMet(units: UnitSet, s: set<Name>)
  {
    forall a | a in s && a in units :: forall b | b in units[a].deps.needs :: b in units
  }

  predicate NoConflicts(units: UnitSet, s: set<Name>)
  {
    forall a | a in s && a in units :: forall b | b in units[a].deps.conflicts :: b !in s
  }

  predicate SocketServed(units: UnitSet, a: Name)
  {
    a in units && units[a].IsSocket() ==> units[a].kind.activates in units && units[units[a].kind.activates].IsService()
  }

  predicate SocketsServed(units: UnitSet, s: set<Name>)
  {
    forall a | a in s :: SocketServed(units, a)
  }

  // ----- In what order -----

  /** `n`'s own file says that `a` starts before `b`. */
  predicate Declares(units: UnitSet, n: Name, a: Name, b: Name)
  {
    n in units &&
    ((b == n && a in units[n].deps.after)
     || (a == n && b in units[n].deps.before)
     || (a == n && units[n].IsSocket() && b == units[n].kind.activates))
  }

  /** An edge `(a, b)`: `a` starts before `b`. */
  type Edges = set<(Name, Name)>

  /** The ordering edges between units of the start set. */
  function Ordering(units: UnitSet, wanted: set<Name>): Edges
  {
    set a, b | a in wanted && b in wanted && (Declares(units, a, a, b) || Declares(units, b, a, b)) :: (a, b)
  }

  ghost predicate IsWalk(edges: Edges, p: seq<Name>)
  {
    forall i | 0 <= i < |p| - 1 :: (p[i], p[i + 1]) in edges
  }

  ghost predicate IsCycle(edges: Edges, p: seq<Name>)
  {
    |p| >= 2 && p[0] == p[|p| - 1] && IsWalk(edges, p)
  }

  ghost predicate Acyclic(edges: Edges)
  {
    forall p :: !IsCycle(edges, p)
  }

  /** Exactly the members of `s`, once each. */
  predicate Lists(q: seq<Name>, s: set<Name>)
  {
    Distinct(q) && (forall i | 0 <= i < |q| :: q[i] in s) && forall n | n in s :: n in q
  }

  /** Every edge's source precedes its target. */
  predicate Respects(edges: Edges, q: seq<Name>)
  {
    forall i, j | 0 <= i < |q| && 0 <= j < |q| && (q[i], q[j]) in edges :: i < j
  }

  // ----- Orders and cycles exclude one another -----

  lemma {:induction false} DistinctFits(q: seq<Name>, s: set<Name>)
    requires Distinct(q) && forall i | 0 <= i < |q| :: q[i] in s
    ensures |q| <= |s|
    decreases |q|
  {
    if q != [] {
      DistinctFits(q[1..], s - {q[0]});
    }
  }

  /** As many distinct members as there are is all of them; and all of them is as many as there are. */
  lemma DistinctFills(q: seq<Name>, s: set<Name>)
    requires Distinct(q) && forall i | 0 <= i < |q| :: q[i] in s
    ensures |q| == |s| <==> Lists(q, s)
  {
    DistinctFits(q, s);
    if |q| == |s| {
      forall n | n in s ensures n in q {
        if n !in q { DistinctFits(q, s - {n}); }
      }
    } else if Lists(q, s) {
      var listed := set i | 0 <= i < |q| :: q[i];
      assert s == listed;
      ListedIsShort(q);
    }
  }

  lemma {:induction false} ListedIsShort(q: seq<Name>)
    ensures |set i | 0 <= i < |q| :: q[i]| <= |q|
  {
    if q != [] {
      var last := |q| - 1;
      assert (set i | 0 <= i < |q| :: q[i]) == (set i | 0 <= i < last :: q[..last][i]) + {q[last]};
      ListedIsShort(q[..last]);
    }
  }

  /** Along a walk, positions in an order that respects the edges only go up. */
  lemma {:induction false} WalkClimbs(edges: Edges, q: seq<Name>, p: seq<Name>, i: nat, from: nat, to: nat)
    requires Respects(edges, q) && IsWalk(edges, p) && 0 < i < |p|
    requires forall j | 0 <= j < |p| :: p[j] in q
    requires from < |q| && to < |q| && q[from] == p[0] && q[to] == p[i]
    ensures from < to
    decreases i
  {
    assert (p[i - 1], p[i]) in edges;
    var mid :| 0 <= mid < |q| && q[mid] == p[i - 1];
    if i > 1 { WalkClimbs(edges, q, p, i - 1, from, mid); }
  }

  lemma OrderedIsAcyclic(edges: Edges, wanted: set<Name>, q: seq<Name>)
    requires Respects(edges, q) && Lists(q, wanted)
    requires forall a, b | (a, b) in edges :: a in wanted && b in wanted
    ensures Acyclic(edges)
  {
    forall p ensures !IsCycle(edges, p) {
      if IsCycle(edges, p) {
        forall j | 0 <= j < |p| ensures p[j] in q {
          assert (p[if j == 0 then 0 else j - 1], p[if j == 0 then 1 else j]) in edges;
        }
        var at :| 0 <= at < |q| && q[at] == p[0];
        WalkClimbs(edges, q, p, |p| - 1, at, at);
      }
    }
  }

  ghost predicate HasPredecessorIn(edges: Edges, s: set<Name>, b: Name)
  {
    exists a :: a in s && (a, b) in edges
  }

  /** If every member of a set has a predecessor in it, walking backwards closes a cycle. */
  lemma {:induction false} BlockedHasCycle(edges: Edges, blocked: set<Name>, walk: seq<Name>)
    requires forall b | b in blocked :: HasPredecessorIn(edges, blocked, b)
    requires walk != [] && Distinct(walk) && forall i | 0 <= i < |walk| :: walk[i] in blocked
    requires IsWalk(edges, walk)
    ensures !Acyclic(edges)
    decreases |blocked| - |walk|
  {
    DistinctFits(walk, blocked);
    assert HasPredecessorIn(edges, blocked, walk[0]);
    var a :| a in blocked && (a, walk[0]) in edges;
    var longer := [a] + walk;
    if a in walk {
      var at :| 0 <= at < |walk| && walk[at] == a;
      assert IsCycle(edges, longer[..at + 2]);
    } else {
      DistinctFits(longer, blocked);
      BlockedHasCycle(edges, blocked, longer);
    }
  }

  lemma NonemptyBlockedHasCycle(edges: Edges, blocked: set<Name>)
    requires forall b | b in blocked :: HasPredecessorIn(edges, blocked, b)
    requires blocked != {}
    ensures !Acyclic(edges)
  {
    var b :| b in blocked;
    BlockedHasCycle(edges, blocked, [b]);
  }
}
