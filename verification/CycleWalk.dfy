/** Recovering a cycle for the error message, by walking successors Kahn left blocked. */
module CycleWalk {
  import opened Names
  import opened Wrappers
  import opened Graph
  import opened OrderingEdges

  /** The first successor that is itself still blocked. */
  function Next(successors: Successors, blocked: set<Name>, n: Name): (r: Option<Name>)
    ensures r.Some? ==> Has(successors, n, r.value) && r.value in blocked
    ensures r.None? ==> forall b | b in blocked :: !Has(successors, n, b)
  {
    var held := if n in successors then successors[n] * blocked else {};
    assert forall b | b in blocked && Has(successors, n, b) :: b in held;
    if held == {} then None else Some(Least(held))
  }

  /** The walk from `current`, having come along `path`. */
  function Walk(successors: Successors, blocked: set<Name>, path: seq<Name>, current: Name): (r: seq<Name>)
    requires Distinct(path) && (forall i | 0 <= i < |path| :: path[i] in blocked) && current in blocked
    decreases |blocked| - |path|
  {
    if current in path then path[IndexOf(path, current)..] + [current]
    else
      var longer := path + [current];
      DistinctFits(longer, blocked);
      match Next(successors, blocked, current)
      case None => longer
      case Some(next) => Walk(successors, blocked, longer, next)
  }

  function Found(successors: Successors, blocked: set<Name>): seq<Name>
  {
    if blocked == {} then [] else Walk(successors, blocked, [], Least(blocked))
  }

  method FindCycle(successors: Successors, remaining: map<Name, nat>) returns (cycle: seq<Name>)
    ensures cycle == Found(successors, set n | n in remaining && remaining[n] > 0)
  {
    var blocked := set n | n in remaining && remaining[n] > 0;
    if blocked == {} {
      return [];
    }
    var path, current := [], Least(blocked);
    while true
      invariant Distinct(path) && (forall i | 0 <= i < |path| :: path[i] in blocked) && current in blocked
      invariant Found(successors, blocked) == Walk(successors, blocked, path, current)
      decreases |blocked| - |path|
    {
      if current in path {
        return path[IndexOf(path, current)..] + [current];
      }
      path := path + [current];
      DistinctFits(path, blocked);
      match Next(successors, blocked, current) {
        case None => return path;
        case Some(next) => current := next;
      }
    }
  }

  /** Ends where it began, with nothing repeated in between: a simple cycle. */
  predicate Closes(r: seq<Name>)
  {
    |r| >= 2 && r[0] == r[|r| - 1] && Distinct(r[..|r| - 1])
  }

  /** Repeats nothing and ends where no successor is blocked. */
  predicate Strays(successors: Successors, blocked: set<Name>, r: seq<Name>)
  {
    r != [] && Distinct(r) && Next(successors, blocked, r[|r| - 1]).None?
  }

  /** Each unit is followed by its first blocked successor. */
  predicate Follows(successors: Successors, blocked: set<Name>, r: seq<Name>)
  {
    (forall i | 0 <= i < |r| :: r[i] in blocked) &&
    forall i | 0 <= i < |r| - 1 :: Next(successors, blocked, r[i]) == Some(r[i + 1])
  }

  /** Where the walk is after `n` steps, if it gets that far. */
  function Orbit(successors: Successors, blocked: set<Name>, start: Name, n: nat): Option<Name>
  {
    if n == 0 then Some(start)
    else
      match Orbit(successors, blocked, start, n - 1)
      case None => None
      case Some(x) => Next(successors, blocked, x)
  }

  predicate OnOrbit(successors: Successors, blocked: set<Name>, start: Name, path: seq<Name>, current: Name)
  {
    (forall i | 0 <= i < |path| :: Orbit(successors, blocked, start, i) == Some(path[i])) &&
    Orbit(successors, blocked, start, |path|) == Some(current)
  }

  /** The walk either closes a simple cycle or runs into a unit nothing blocked follows; the orbit says which. */
  lemma {:induction false} WalkEnds(
      successors: Successors, blocked: set<Name>, start: Name, path: seq<Name>, current: Name)
    requires Distinct(path) && (forall i | 0 <= i < |path| :: path[i] in blocked) && current in blocked
    requires Follows(successors, blocked, path + [current])
    requires OnOrbit(successors, blocked, start, path, current)
    ensures var r := Walk(successors, blocked, path, current);
            && Follows(successors, blocked, r)
            && r != []
            && (if Orbit(successors, blocked, start, |blocked|).Some? then Closes(r)
                else Strays(successors, blocked, r))
    decreases |blocked| - |path|
  {
    hide Next, Orbit;
    if current in path {
      ClosingWalk(successors, blocked, start, path, current);
    } else {
      var longer := path + [current];
      DistinctFits(longer, blocked);
      match Next(successors, blocked, current)
      case None =>
        RunsOut(successors, blocked, start, |path|, current, |blocked|);
      case Some(next) =>
        OneMoreStep(successors, blocked, start, path, current, next);
        WalkEnds(successors, blocked, start, longer, next);
    }
  }

  lemma OneMoreStep(
      successors: Successors, blocked: set<Name>, start: Name, path: seq<Name>, current: Name, next: Name)
    requires Follows(successors, blocked, path + [current]) && OnOrbit(successors, blocked, start, path, current)
    requires next in blocked && Next(successors, blocked, current) == Some(next)
    ensures Follows(successors, blocked, path + [current] + [next])
    ensures OnOrbit(successors, blocked, start, path + [current], next)
  {
    hide Next;
    var longer := path + [current];
    var all := longer + [next];
    assert forall i | 0 <= i < |longer| :: all[i] == longer[i];
    assert all[|longer|] == next && longer[|path|] == current;
    assert forall i | 0 <= i < |path| :: longer[i] == path[i];
    assert Orbit(successors, blocked, start, |path| + 1) == Some(next);
  }

  lemma RunsOut(successors: Successors, blocked: set<Name>, start: Name, n: nat, last: Name, m: nat)
    requires Orbit(successors, blocked, start, n) == Some(last) && Next(successors, blocked, last).None? && n < m
    ensures Orbit(successors, blocked, start, m).None?
  {
    assert Orbit(successors, blocked, start, n + 1).None?;
    if Orbit(successors, blocked, start, m).Some? {
      EarlierOrbit(successors, blocked, start, n + 1, m);
    }
  }

  lemma ClosingWalk(successors: Successors, blocked: set<Name>, start: Name, path: seq<Name>, current: Name)
    requires Distinct(path) && Follows(successors, blocked, path + [current]) && current in path
    requires OnOrbit(successors, blocked, start, path, current)
    ensures var r := path[IndexOf(path, current)..] + [current];
            Closes(r) && Follows(successors, blocked, r)
    ensures Orbit(successors, blocked, start, |blocked|).Some?
  {
    hide Next, Orbit;
    var at := IndexOf(path, current);
    var r := path[at..] + [current];
    var all := path + [current];
    assert r == all[at..];
    assert r[..|r| - 1] == path[at..];
    forall i | 0 <= i < |r| - 1 ensures Next(successors, blocked, r[i]) == Some(r[i + 1]) {
      assert r[i] == all[at + i] && r[i + 1] == all[at + i + 1];
    }
    PeriodicOrbit(successors, blocked, start, at, |path|, |blocked|);
  }

  lemma {:induction false} EarlierOrbit(successors: Successors, blocked: set<Name>, start: Name, m: nat, n: nat)
    requires m <= n && Orbit(successors, blocked, start, n).Some?
    ensures Orbit(successors, blocked, start, m).Some?
    decreases n
  {
    if m < n { EarlierOrbit(successors, blocked, start, m, n - 1); }
  }

  lemma {:induction false} OrbitsMeet(
      successors: Successors, blocked: set<Name>, start: Name, at: nat, again: nat, j: nat)
    requires Orbit(successors, blocked, start, at) == Orbit(successors, blocked, start, again)
    ensures Orbit(successors, blocked, start, at + j) == Orbit(successors, blocked, start, again + j)
    decreases j
  {
    hide Next;
    if j > 0 {
      OrbitsMeet(successors, blocked, start, at, again, j - 1);
      assert at + j - 1 == at + (j - 1) && again + j - 1 == again + (j - 1);
    }
  }

  lemma {:induction false} PeriodicOrbit(
      successors: Successors, blocked: set<Name>, start: Name, at: nat, again: nat, n: nat)
    requires at < again && Orbit(successors, blocked, start, at) == Orbit(successors, blocked, start, again)
    requires Orbit(successors, blocked, start, again).Some?
    ensures Orbit(successors, blocked, start, n).Some?
    decreases n
  {
    hide Next, Orbit;
    if n <= again {
      EarlierOrbit(successors, blocked, start, n, again);
    } else {
      OrbitsMeet(successors, blocked, start, at, again, n - again);
      PeriodicOrbit(successors, blocked, start, at, again, at + (n - again));
    }
  }

  /**
   * What the error message shows: a walk through blocked units that is a simple
   * cycle when first blocked successors can be followed for as many steps as
   * there are blocked units, and otherwise ends at one nothing blocked follows.
   */
  lemma FoundIsCycleOrStray(successors: Successors, blocked: set<Name>)
    requires blocked != {}
    ensures var r := Found(successors, blocked);
            && r != [] && Follows(successors, blocked, r)
            && (if Orbit(successors, blocked, Least(blocked), |blocked|).Some? then Closes(r)
                else Strays(successors, blocked, r))
            && !(Closes(r) && Strays(successors, blocked, r))
  {
    AppendNothing([Least(blocked)]);
    WalkEnds(successors, blocked, Least(blocked), [], Least(blocked));
  }

  // ----- The walk is a matter of the edges alone -----

  function SuccessorsOf(edges: Edges, wanted: set<Name>): Successors
  {
    map a | a in wanted :: set b | b in wanted && (a, b) in edges
  }

  lemma {:induction false} SameEdgesSameWalk(
      s: Successors, t: Successors, blocked: set<Name>, path: seq<Name>, current: Name)
    requires Distinct(path) && (forall i | 0 <= i < |path| :: path[i] in blocked) && current in blocked
    requires forall a, b :: Has(s, a, b) <==> Has(t, a, b)
    ensures Walk(s, blocked, path, current) == Walk(t, blocked, path, current)
    decreases |blocked| - |path|
  {
    if current !in path {
      var longer := path + [current];
      DistinctFits(longer, blocked);
      SameEdgesSameNext(s, t, blocked, current);
      match Next(s, blocked, current)
      case None =>
      case Some(next) => SameEdgesSameWalk(s, t, blocked, longer, next);
    }
  }

  lemma SameEdgesSameNext(s: Successors, t: Successors, blocked: set<Name>, n: Name)
    requires forall a, b :: Has(s, a, b) <==> Has(t, a, b)
    ensures Next(s, blocked, n) == Next(t, blocked, n)
  {
    var held := if n in s then s[n] * blocked else {};
    var other := if n in t then t[n] * blocked else {};
    assert forall b :: b in held <==> Has(s, n, b) && b in blocked;
    assert forall b :: b in other <==> Has(t, n, b) && b in blocked;
    assert held == other;
  }

  /**
   * The walk need not find the cycle. With `c` before `d`, `d` before `c` and
   * `c` before `a`, all three are blocked, and the walk starts at `a`, which is
   * only downstream: the message names `a` alone.
   */
  lemma DownstreamUnitStrays()
    ensures var successors := map["c" := {"a", "d"}, "d" := {"c"}];
            var blocked := {"a", "c", "d"};
            && Found(successors, blocked) == ["a"] && !Closes(Found(successors, blocked))
            && (forall b | b in blocked :: exists a :: a in blocked && Has(successors, a, b))
  {
    var successors := map["c" := {"a", "d"}, "d" := {"c"}];
    var blocked := {"a", "c", "d"};
    assert Leq("a", "a") && Leq("a", "c") && Leq("a", "d") by {
      LeqTotal("a", "a");
    }
    assert IsLeast("a", blocked);
    LeastIsUnique("a", Least(blocked), blocked);
    assert Next(successors, blocked, "a").None?;
    AppendNothing(["a"]);
    assert Has(successors, "c", "a") && Has(successors, "d", "c") && Has(successors, "c", "d");
  }
}
