/** Resolving a unit set into a start plan. */
module Resolver {
  import opened Names
  import opened Wrappers
  import opened Units
  import opened Graph
  import opened OrderingEdges
  import opened Kahn
  import opened CycleWalk

  // ----- The order -----

  /** Whatever Kahn left behind is waiting for something else it left behind. */
  lemma LeftoverIsBlocked(
      successors: Successors, wanted: set<Name>, edges: Edges, order: seq<Name>, remaining: map<Name, nat>, b: Name)
    requires Remains(successors, wanted, order, remaining) && Progress(successors, wanted, order, |order|, remaining)
    requires forall a, b :: Has(successors, a, b) <==> (a, b) in edges
    requires forall a, b | (a, b) in edges :: a in wanted && b in wanted
    requires b in wanted && remaining[b] > 0
    ensures HasPredecessorIn(edges, (set n | n in remaining && remaining[n] > 0), b)
  {
    assert Into(successors, b) - Elements(order) != {};
    var a :| a in Into(successors, b) - Elements(order);
    assert Has(successors, a, b) && a !in order;
    assert remaining[a] > 0;
  }

  /** An order Kahn completed respects every edge. */
  lemma CompleteRespects(
      successors: Successors, wanted: set<Name>, edges: Edges, order: seq<Name>, remaining: map<Name, nat>)
    requires Progress(successors, wanted, order, |order|, remaining)
    requires forall a, b :: Has(successors, a, b) <==> (a, b) in edges
    ensures Respects(edges, order)
  {
    forall i, j | 0 <= i < |order| && 0 <= j < |order| && (order[i], order[j]) in edges ensures i < j {
      assert order[i] in Into(successors, order[j]);
      assert order[i] in order[..j];
    }
  }

  /** The largest set of wanted units in which each waits for another: what Kahn can never reach. */
  ghost predicate IsLeftover(edges: Edges, wanted: set<Name>, blocked: set<Name>)
  {
    && blocked <= wanted && (forall b | b in blocked :: HasPredecessorIn(edges, blocked, b))
    && forall s: set<Name> | s <= wanted && (forall b | b in s :: HasPredecessorIn(edges, s, b)) :: s <= blocked
  }

  /**
   * An error's path: the walk of first blocked successors from the first blocked unit, which is a simple cycle if it
   * can go on for as many steps as there are blocked units, and otherwise ends where nothing blocked follows.
   */
  ghost predicate Reports(edges: Edges, wanted: set<Name>, blocked: set<Name>, path: seq<Name>)
  {
    var s := SuccessorsOf(edges, wanted);
    && blocked != {} && path == Found(s, blocked) && path != []
    && IsWalk(edges, path) && (forall i | 0 <= i < |path| :: path[i] in blocked)
    && (if Orbit(s, blocked, Least(blocked), |blocked|).Some? then Closes(path) && IsCycle(edges, path)
        else Distinct(path) && forall b | b in blocked :: (path[|path| - 1], b) !in edges)
  }

  ghost predicate IsReport(edges: Edges, wanted: set<Name>, path: seq<Name>)
  {
    exists blocked :: IsLeftover(edges, wanted, blocked) && Reports(edges, wanted, blocked, path)
  }

  lemma FollowingIsWalking(successors: Successors, edges: Edges, blocked: set<Name>, r: seq<Name>)
    requires Follows(successors, blocked, r) && forall a, b :: Has(successors, a, b) <==> (a, b) in edges
    ensures IsWalk(edges, r)
  {
    forall i | 0 <= i < |r| - 1 ensures (r[i], r[i + 1]) in edges {
      assert Has(successors, r[i], r[i + 1]);
    }
  }

  /** An order that Kahn could not complete leaves a cycle behind. */
  lemma IncompleteIsCyclic(
      successors: Successors, wanted: set<Name>, edges: Edges, order: seq<Name>, remaining: map<Name, nat>)
    requires Remains(successors, wanted, order, remaining) && Progress(successors, wanted, order, |order|, remaining)
    requires forall a, b :: Has(successors, a, b) <==> (a, b) in edges
    requires forall a, b | (a, b) in edges :: a in wanted && b in wanted
    requires |order| != |wanted|
    ensures !Acyclic(edges) && exists n :: n in remaining && remaining[n] > 0
  {
    var blocked := set n | n in remaining && remaining[n] > 0;
    DistinctFills(order, wanted);
    var left :| left in wanted && left !in order;
    assert left in blocked;
    forall b | b in blocked ensures HasPredecessorIn(edges, blocked, b) {
      LeftoverIsBlocked(successors, wanted, edges, order, remaining, b);
    }
    NonemptyBlockedHasCycle(edges, blocked);
  }

  /** Nothing that waits for itself, however indirectly, is ever placed. */
  lemma {:induction false} PlacedIsFree(successors: Successors, wanted: set<Name>, edges: Edges, order: seq<Name>,
                                        remaining: map<Name, nat>, s: set<Name>, k: nat)
    requires Progress(successors, wanted, order, |order|, remaining) && k <= |order|
    requires forall a, b :: Has(successors, a, b) <==> (a, b) in edges
    requires forall b | b in s :: HasPredecessorIn(edges, s, b)
    ensures forall i | 0 <= i < k :: order[i] !in s
  {
    if k > 0 {
      PlacedIsFree(successors, wanted, edges, order, remaining, s, k - 1);
      var b := order[k - 1];
      if b in s {
        var a :| a in s && (a, b) in edges;
        assert Has(successors, a, b);
        assert a in Into(successors, b);
        assert a in order[..k - 1];
      }
    }
  }

  lemma SelfWaitingIsUnplaced(successors: Successors, wanted: set<Name>, edges: Edges, order: seq<Name>,
                              remaining: map<Name, nat>, s: set<Name>)
    requires Progress(successors, wanted, order, |order|, remaining)
    requires forall a, b :: Has(successors, a, b) <==> (a, b) in edges
    requires s <= wanted && forall b | b in s :: HasPredecessorIn(edges, s, b)
    ensures forall b | b in s :: b in remaining && remaining[b] > 0
  {
    hide Into, HasPredecessorIn, Has;
    PlacedIsFree(successors, wanted, edges, order, remaining, s, |order|);
  }

  lemma UnplacedIsLeftover(
      successors: Successors, wanted: set<Name>, edges: Edges, order: seq<Name>, remaining: map<Name, nat>)
    requires Remains(successors, wanted, order, remaining) && Progress(successors, wanted, order, |order|, remaining)
    requires forall a, b :: Has(successors, a, b) <==> (a, b) in edges
    requires forall a, b | (a, b) in edges :: a in wanted && b in wanted
    ensures IsLeftover(edges, wanted, set n | n in remaining && remaining[n] > 0)
  {
    hide Progress, Has, HasPredecessorIn;
    var blocked := set n | n in remaining && remaining[n] > 0;
    assert remaining.Keys == wanted;
    hide Remains;
    forall b | b in blocked ensures HasPredecessorIn(edges, blocked, b) {
      LeftoverIsBlocked(successors, wanted, edges, order, remaining, b);
    }
    forall s: set<Name> | s <= wanted && (forall b | b in s :: HasPredecessorIn(edges, s, b)) ensures s <= blocked {
      SelfWaitingIsUnplaced(successors, wanted, edges, order, remaining, s);
    }
  }

  lemma FoundIsReport(successors: Successors, wanted: set<Name>, edges: Edges, blocked: set<Name>)
    requires forall a, b :: Has(successors, a, b) <==> (a, b) in edges
    requires forall a, b | (a, b) in edges :: a in wanted && b in wanted
    requires blocked != {}
    ensures Reports(edges, wanted, blocked, Found(successors, blocked))
  {
    var s := SuccessorsOf(edges, wanted);
    assert forall a, b :: Has(s, a, b) <==> Has(successors, a, b);
    SameEdgesSameWalk(successors, s, blocked, [], Least(blocked));
    var path := Found(s, blocked);
    FoundIsCycleOrStray(s, blocked);
    FollowingIsWalking(s, edges, blocked, path);
    EndOfWalk(s, edges, blocked, path);
  }

  lemma EndOfWalk(s: Successors, edges: Edges, blocked: set<Name>, path: seq<Name>)
    requires forall a, b :: Has(s, a, b) <==> (a, b) in edges
    ensures Strays(s, blocked, path) ==> forall b | b in blocked :: (path[|path| - 1], b) !in edges
  {
    if Strays(s, blocked, path) {
      forall b | b in blocked ensures (path[|path| - 1], b) !in edges {
        assert !Has(s, path[|path| - 1], b);
      }
    }
  }

  lemma OrderingIsWithin(units: UnitSet, wanted: set<Name>)
    ensures forall a, b | (a, b) in Ordering(units, wanted) :: a in wanted && b in wanted
  {
  }

  lemma IncompleteIsReported(
      successors: Successors, wanted: set<Name>, edges: Edges, order: seq<Name>, remaining: map<Name, nat>)
    requires Remains(successors, wanted, order, remaining) && Progress(successors, wanted, order, |order|, remaining)
    requires forall a, b :: Has(successors, a, b) <==> (a, b) in edges
    requires forall a, b | (a, b) in edges :: a in wanted && b in wanted
    requires |order| != |wanted|
    ensures !Acyclic(edges) && IsReport(edges, wanted, Found(successors, set n | n in remaining && remaining[n] > 0))
  {
    hide Remains, Progress, Acyclic, IsLeftover, Reports;
    var blocked := set n | n in remaining && remaining[n] > 0;
    IncompleteIsCyclic(successors, wanted, edges, order, remaining);
    var left :| left in remaining && remaining[left] > 0;
    assert left in blocked;
    UnplacedIsLeftover(successors, wanted, edges, order, remaining);
    FoundIsReport(successors, wanted, edges, blocked);
    assert Reports(edges, wanted, blocked, Found(successors, blocked));
  }

  method TopologicalOrder(units: UnitSet, wanted: set<Name>, warnings: seq<Warning>)
    returns (r: Result<seq<Name>, GraphError>, w: seq<Warning>)
    requires wanted <= units.Keys
    ensures r.Ok? <==> Acyclic(Ordering(units, wanted))
    ensures r.Ok? ==> Lists(r.value, wanted) && Respects(Ordering(units, wanted), r.value)
    ensures r.Err? ==> r.error.Cycle? && IsReport(Ordering(units, wanted), wanted, r.error.path)
    ensures WarnedSoFar(units, Sorted(wanted), warnings, w)
  {
    hide Remains, Built, Acyclic, IsReport, Respects;
    ghost var edges := Ordering(units, wanted);
    OrderingIsWithin(units, wanted);
    hide Ordering;
    var successors, inDegree;
    successors, inDegree, w := BuildEdges(units, wanted, warnings);
    var order, remaining := Drain(successors, inDegree, wanted);
    if |order| != |wanted| {
      IncompleteIsReported(successors, wanted, edges, order, remaining);
      var path := FindCycle(successors, remaining);
      return Err(Cycle(path)), w;
    }
    DistinctFills(order, wanted);
    CompleteRespects(successors, wanted, edges, order, remaining);
    OrderedIsAcyclic(edges, wanted, order);
    return Ok(order), w;
  }

  // ----- The set -----

  /**
   * Nothing outside every closed set has been reached, and what has been reached pulls in only what has been
   * queued.
   */
  ghost predicate Exploring(units: UnitSet, root: Name, seen: set<Name>, queue: seq<Name>)
  {
    && seen <= units.Keys
    && (forall n | n in seen || n in queue :: Required(units, root, n) && n in units)
    && (root in seen || root in queue)
    && (forall a, b | a in seen && PullsIn(units, a, b) :: b in seen || b in queue)
    && NeedsMet(units, seen)
  }

  predicate MissingWantOf(units: UnitSet, n: Name, x: Warning)
  {
    n in units && x.MissingWants? && x.who == n && x.missing in units[n].deps.wants && x.missing !in units
  }

  /** A missing `wants` is reported, and nothing else is. */
  ghost predicate WantsWarnings(units: UnitSet, s: set<Name>, w: seq<Warning>)
  {
    forall x :: x in w <==> x.MissingWants? && x.who in s && MissingWantOf(units, x.who, x)
  }

  lemma PullIsRequired(units: UnitSet, root: Name, a: Name, b: Name)
    requires Required(units, root, a) && PullsIn(units, a, b)
    ensures Required(units, root, b)
  {
    forall s: set<Name> | ClosedFrom(units, root, s) ensures b in s {
      assert a in s;
    }
  }

  /** The first `requires` that does not exist, if there is one. */
  method FirstMissing(units: UnitSet, deps: seq<Name>) returns (missing: Option<Name>)
    ensures missing.Some? ==> missing.value in deps && missing.value !in units
    ensures missing.None? ==> forall d | d in deps :: d in units
  {
    for i := 0 to |deps|
      invariant forall j | 0 <= j < i :: deps[j] in units
    {
      if deps[i] !in units {
        return Some(deps[i]);
      }
    }
    return None;
  }

  /** The `wants` that exist, and a warning for each that does not. */
  method SplitWants(units: UnitSet, name: Name, warnings: seq<Warning>) returns (found: seq<Name>, w: seq<Warning>)
    requires name in units
    ensures forall n :: n in found <==> n in units[name].deps.wants && n in units
    ensures forall x :: x in w <==> x in warnings || MissingWantOf(units, name, x)
  {
    found, w := [], warnings;
    var wants := units[name].deps.wants;
    for i := 0 to |wants|
      invariant forall n :: n in found <==> n in wants[..i] && n in units
      invariant forall x :: x in w <==>
                  x in warnings || (x.MissingWants? && x.who == name && x.missing in wants[..i] && x.missing !in units)
    {
      TakeOneMore(wants, i);
      if wants[i] in units {
        found := found + [wants[i]];
      } else {
        w := w + [MissingWants(name, wants[i])];
      }
    }
    TakeAll(wants);
  }

  method Reachable(units: UnitSet, root: Name) returns (r: Result<set<Name>, GraphError>, w: seq<Warning>)
    requires root in units
    ensures r.Ok? <==> NeedsMet(units, Closure(units, root))
    ensures r.Ok? ==> r.value == Closure(units, root) && WantsWarnings(units, r.value, w)
    ensures r.Err? ==> r.error.MissingRequires? && r.error.who in Closure(units, root)
                       && r.error.missing in units[r.error.who].deps.needs && r.error.missing !in units
  {
    hide Exploring, WantsWarnings, MissingWantOf;
    var seen: set<Name>, queue := {}, [root];
    w := [];
    NothingExplored(units, root);
    while queue != []
      invariant Exploring(units, root, seen, queue)
      invariant WantsWarnings(units, seen, w)
      decreases |units.Keys - seen|, |queue|
    {
      var name := queue[0];
      assert queue == [name] + queue[1..];
      queue := queue[1..];
      QueuedIsRequired(units, root, seen, name, queue);
      if name in seen {
        SkipSeen(units, root, seen, name, queue);
        continue;
      }
      var unit := units[name];
      var missing := FirstMissing(units, unit.deps.needs);
      if missing.Some? {
        MissingIsFatal(units, root, name, missing.value);
        return Err(MissingRequires(name, missing.value)), w;
      }
      assert units.Keys - seen == units.Keys - (seen + {name}) + {name};
      var found;
      ghost var sofar := w;
      found, w := SplitWants(units, name, w);
      ExploreOne(units, root, seen, queue, name, found);
      WarnOne(units, seen, sofar, name, w);
      queue := queue + unit.deps.needs + found;
      seen := seen + {name};
    }
    ExploredIsClosure(units, root, seen);
    return Ok(seen), w;
  }

  lemma NothingExplored(units: UnitSet, root: Name)
    requires root in units
    ensures Exploring(units, root, {}, [root]) && WantsWarnings(units, {}, [])
  {
  }

  /** Whatever is queued exists and is required. */
  lemma QueuedIsRequired(units: UnitSet, root: Name, seen: set<Name>, name: Name, queue: seq<Name>)
    requires Exploring(units, root, seen, [name] + queue)
    ensures name in units && Required(units, root, name) && seen <= units.Keys
  {
    assert ([name] + queue)[0] == name;
  }

  lemma MissingIsFatal(units: UnitSet, root: Name, name: Name, missing: Name)
    requires Required(units, root, name) && name in units
    requires missing in units[name].deps.needs && missing !in units
    ensures name in Closure(units, root) && !NeedsMet(units, Closure(units, root))
  {
  }

  lemma ExploredIsClosure(units: UnitSet, root: Name, seen: set<Name>)
    requires root in units && Exploring(units, root, seen, [])
    ensures seen == Closure(units, root) && NeedsMet(units, Closure(units, root))
  {
    LeastIsClosure(units, root, seen);
  }

  lemma SkipSeen(units: UnitSet, root: Name, seen: set<Name>, name: Name, queue: seq<Name>)
    requires Exploring(units, root, seen, [name] + queue) && name in seen
    ensures Exploring(units, root, seen, queue)
  {
    assert forall n :: n in [name] + queue <==> n == name || n in queue;
  }

  lemma ExploreOne(units: UnitSet, root: Name, seen: set<Name>, queue: seq<Name>, name: Name, found: seq<Name>)
    requires Exploring(units, root, seen, [name] + queue) && name in units
    requires forall d | d in units[name].deps.needs :: d in units
    requires forall n :: n in found <==> n in units[name].deps.wants && n in units
    ensures Exploring(units, root, seen + {name}, queue + units[name].deps.needs + found)
  {
    var more := queue + units[name].deps.needs + found;
    assert name in [name] + queue;
    forall n | n in units[name].deps.needs || n in found ensures Required(units, root, n) && n in units {
      PullIsRequired(units, root, name, n);
    }
    assert forall n :: n in [name] + queue <==> n == name || n in queue;
    assert forall n :: n in more <==> n in queue || n in units[name].deps.needs || n in found;
  }

  lemma WarnOne(units: UnitSet, seen: set<Name>, w: seq<Warning>, name: Name, more: seq<Warning>)
    requires WantsWarnings(units, seen, w) && forall x :: x in more <==> x in w || MissingWantOf(units, name, x)
    ensures WantsWarnings(units, seen + {name}, more)
  {
  }

  // ----- The checks, and the whole -----

  method CheckConflicts(units: UnitSet, wanted: set<Name>) returns (e: Option<GraphError>)
    requires wanted <= units.Keys
    ensures e.None? <==> NoConflicts(units, wanted)
    ensures e.Some? ==> e.value.ConflictingRequired? && e.value.a in wanted && e.value.b in wanted
                        && e.value.b in units[e.value.a].deps.conflicts
  {
    var names := Sorted(wanted);
    for i := 0 to |names|
      invariant forall a | a in names[..i] :: forall b | b in units[a].deps.conflicts :: b !in wanted
    {
      TakeOneMore(names, i);
      var conflicts := units[names[i]].deps.conflicts;
      for j := 0 to |conflicts|
        invariant forall b | b in conflicts[..j] :: b !in wanted
      {
        TakeOneMore(conflicts, j);
        if conflicts[j] in wanted {
          return Some(ConflictingRequired(names[i], conflicts[j]));
        }
      }
      TakeAll(conflicts);
    }
    TakeAll(names);
    return None;
  }

  method CheckSockets(units: UnitSet, wanted: set<Name>) returns (e: Option<GraphError>)
    requires wanted <= units.Keys
    ensures e.None? <==> SocketsServed(units, wanted)
    ensures e.Some? ==>
              || (e.value.MissingSocketService? && e.value.who in wanted && units[e.value.who].IsSocket()
                  && e.value.missing == units[e.value.who].kind.activates && e.value.missing !in units)
              || (e.value.SocketServiceNotAService? && e.value.who in wanted && units[e.value.who].IsSocket()
                  && e.value.other == units[e.value.who].kind.activates && e.value.other in units
                  && !units[e.value.other].IsService())
  {
    var names := Sorted(wanted);
    for i := 0 to |names|
      invariant forall a | a in names[..i] :: SocketServed(units, a)
    {
      TakeOneMore(names, i);
      var unit := units[names[i]];
      if unit.IsSocket() {
        var service := unit.kind.activates;
        if service !in units {
          return Some(MissingSocketService(names[i], service));
        }
        if !units[service].IsService() {
          return Some(SocketServiceNotAService(names[i], service));
        }
      }
    }
    TakeAll(names);
    return None;
  }

  lemma ClosureIsWithin(units: UnitSet, root: Name)
    ensures Closure(units, root) <= units.Keys
  {
  }

  /** What a unit set has to be for a plan to exist. */
  ghost predicate Resolvable(units: UnitSet, root: Name)
  {
    && root in units
    && NeedsMet(units, Closure(units, root))
    && NoConflicts(units, Closure(units, root))
    && SocketsServed(units, Closure(units, root))
    && Acyclic(Ordering(units, Closure(units, root)))
  }

  /** What a plan for it is. */
  ghost predicate IsPlan(units: UnitSet, root: Name, order: seq<Name>)
  {
    && Lists(order, Closure(units, root))
    && Respects(Ordering(units, Closure(units, root)), order)
    && NoConflicts(units, Closure(units, root))
  }

  method ResolveFrom(units: UnitSet, root: Name) returns (r: Result<Plan, GraphError>)
    ensures r.Ok? <==> Resolvable(units, root)
    ensures r.Ok? ==> IsPlan(units, root, r.value.order)
    ensures r.Ok? ==> forall x :: x in r.value.warnings <==>
              x.who in Closure(units, root) &&
              (MissingWantOf(units, x.who, x) ||
               Misses(units, x.who, units[x.who].deps.after + units[x.who].deps.before, x))
    ensures r == Err(NoDefault) <==> root !in units
    ensures r.Err? && r.error.MissingRequires? <==> root in units && !NeedsMet(units, Closure(units, root))
    ensures r.Err? && r.error.ConflictingRequired? <==>
              root in units && NeedsMet(units, Closure(units, root)) && !NoConflicts(units, Closure(units, root))
    ensures r.Err? && r.error.Cycle? <==>
              root in units && NeedsMet(units, Closure(units, root)) && NoConflicts(units, Closure(units, root))
              && SocketsServed(units, Closure(units, root)) && !Acyclic(Ordering(units, Closure(units, root)))
    ensures r.Err? && r.error.Cycle? ==>
              IsReport(Ordering(units, Closure(units, root)), Closure(units, root), r.error.path)
  {
    hide Closure, Ordering, NeedsMet, NoConflicts, SocketsServed, Acyclic, IsReport, Respects, Lists;
    if root !in units {
      return Err(NoDefault);
    }
    ClosureIsWithin(units, root);
    var reached, w := Reachable(units, root);
    if reached.Err? {
      return Err(reached.error);
    }
    var wanted := reached.value;
    var conflict := CheckConflicts(units, wanted);
    if conflict.Some? {
      return Err(conflict.value);
    }
    var unserved := CheckSockets(units, wanted);
    if unserved.Some? {
      return Err(unserved.value);
    }
    var order, warnings := TopologicalOrder(units, wanted, w);
    if order.Err? {
      return Err(order.error);
    }
    return Ok(Plan(order.value, warnings));
  }

  // ----- An error that names no cycle -----

  const WANTS_THREE := Unit(Deps([], ["a", "c", "d"], [], [], []), TargetKind)
  const BEFORE_BOTH := Unit(Deps([], [], [], ["d", "a"], []), TargetKind)
  const BEFORE_C := Unit(Deps([], [], [], ["c"], []), TargetKind)
  const BEFORE_NONE := Unit(Deps([], [], [], [], []), TargetKind)

  /** `c` before `d` and `a`, `d` before `c`. */
  const TANGLED: UnitSet := map["default" := WANTS_THREE, "c" := BEFORE_BOTH, "d" := BEFORE_C, "a" := BEFORE_NONE]

  /** The resolver's answer for them is an error that names `a` alone, which is on no cycle. */
  method TangledNamesNoCycle() returns (r: Result<Plan, GraphError>)
    ensures r == Err(Cycle(["a"]))
  {
    hide Closure, Ordering, NeedsMet, NoConflicts, SocketsServed, Acyclic, IsReport, Resolvable;
    r := ResolveFrom(TANGLED, "default");
    TangledClosure();
    TangledIsCyclic();
    TangledReport(r.error.path);
  }

  const ALL_FOUR: set<Name> := {"default", "a", "c", "d"}

  lemma TangledClosure()
    ensures Closure(TANGLED, "default") == ALL_FOUR
    ensures NeedsMet(TANGLED, ALL_FOUR) && NoConflicts(TANGLED, ALL_FOUR) && SocketsServed(TANGLED, ALL_FOUR)
  {
    ClosureIsLeast(TANGLED, "default");
    var s := Closure(TANGLED, "default");
    assert PullsIn(TANGLED, "default", "a") && PullsIn(TANGLED, "default", "c") && PullsIn(TANGLED, "default", "d");
    assert ClosedFrom(TANGLED, "default", ALL_FOUR);
  }

  lemma TangledEdges()
    ensures Ordering(TANGLED, ALL_FOUR) == {("c", "d"), ("c", "a"), ("d", "c")}
  {
  }

  lemma TangledIsCyclic()
    ensures !Acyclic(Ordering(TANGLED, ALL_FOUR))
  {
    TangledEdges();
    assert IsCycle(Ordering(TANGLED, ALL_FOUR), ["c", "d", "c"]);
  }

  const THREE: set<Name> := {"a", "c", "d"}

  /** The one unit nothing comes before is the only one that is not left over. */
  lemma LeftoverIsAllBut(edges: Edges, wanted: set<Name>, blocked: set<Name>, free: Name)
    requires IsLeftover(edges, wanted, blocked)
    requires forall b | b in wanted && b != free :: HasPredecessorIn(edges, wanted - {free}, b)
    requires forall a :: (a, free) !in edges
    ensures blocked == wanted - {free}
  {
    assert free !in blocked;
    assert wanted - {free} <= blocked;
  }

  lemma TangledLeftover(blocked: set<Name>)
    requires IsLeftover(Ordering(TANGLED, ALL_FOUR), ALL_FOUR, blocked)
    ensures blocked == THREE
  {
    var edges := Ordering(TANGLED, ALL_FOUR);
    TangledEdges();
    hide Ordering, IsLeftover;
    assert ALL_FOUR - {"default"} == THREE;
    assert ("c", "a") in edges && ("d", "c") in edges && ("c", "d") in edges;
    LeftoverIsAllBut(edges, ALL_FOUR, blocked, "default");
  }

  lemma LeastOfThree()
    ensures Least(THREE) == "a"
  {
    assert Leq("a", "a") && Leq("a", "c") && Leq("a", "d") by {
      LeqTotal("a", "a");
    }
    assert IsLeast("a", THREE);
    LeastIsUnique("a", Least(THREE), THREE);
  }

  lemma TangledReport(path: seq<Name>)
    ensures IsReport(Ordering(TANGLED, ALL_FOUR), ALL_FOUR, path) ==> path == ["a"]
  {
    hide Ordering, IsLeftover, Reports;
    var edges := Ordering(TANGLED, ALL_FOUR);
    if IsReport(edges, ALL_FOUR, path) {
      var blocked :| IsLeftover(edges, ALL_FOUR, blocked) && Reports(edges, ALL_FOUR, blocked, path);
      TangledLeftover(blocked);
      ReportIsFound(edges, ALL_FOUR, blocked, path);
      TangledSuccessors();
      TangledWalk(SuccessorsOf(edges, ALL_FOUR));
    }
  }

  lemma ReportIsFound(edges: Edges, wanted: set<Name>, blocked: set<Name>, path: seq<Name>)
    requires Reports(edges, wanted, blocked, path)
    ensures path == Found(SuccessorsOf(edges, wanted), blocked)
  {
  }

  lemma TangledSuccessors()
    ensures forall b :: !Has(SuccessorsOf(Ordering(TANGLED, ALL_FOUR), ALL_FOUR), "a", b)
  {
    hide Ordering;
    TangledEdges();
  }

  lemma TangledWalk(s: Successors)
    requires forall b | b in THREE :: !Has(s, "a", b)
    ensures Found(s, THREE) == ["a"]
  {
    hide Least;
    LeastOfThree();
    assert Next(s, THREE, "a").None?;
    AppendNothing(["a"]);
  }
}
