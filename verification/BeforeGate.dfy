/** What `before` does at run time, exactly: nothing that `after` or a conflict does not already do. */
module BeforeGate {
  import opened Names
  import opened Wrappers
  import opened Units
  import opened Services
  import opened Alarms
  import opened Graph
  import opened Resolver
  import opened Supervision
  import opened SupervisionSafety
  import opened SupervisionRuns
  import opened SupervisionTheorems
  import opened Boot

  /**
   * `before` holds nothing back at run time: a queued unit that declares no `after` of its own has left the queue
   * when `pump` returns, whoever declares to come before it and however far along that is.
   */
  lemma BeforeAloneNeverHolds(s: Sup, k: Kernel, n: Name)
    requires s.shutdown.None? && n in s.instances && s.instances[n].unit.deps.after == []
    ensures n !in Pump(s, k).pending
  {
    hide Pump;
    PumpDrains(s, k);
    PumpTidy(s, k);
    var t := Pump(s, k);
    assert n in t.instances && t.instances[n].unit.deps.after == [];
    assert OrderingSatisfied(t, n);
  }

  // ----- The gate of one queued unit -----

  /** `b` is queued, as `u` defines it, while `a`, as `w` defines it, is still activating. */
  predicate Behind(s: Sup, a: Name, w: Unit, b: Name, u: Unit)
  {
    && a in s.instances && s.instances[a].unit == w && s.instances[a].state.Activating?
    && b in s.instances && s.instances[b].unit == u && b in s.pending
  }

  /** One process activating, one unit queued behind it, its deadline armed and nothing else there. */
  function Situation(a: Name, w: Unit, b: Name, u: Unit): Sup
  {
    Sup(map[a := NewRuntime(w).EnteredActivating(1), b := NewRuntime(u)], [b], [b], {}, map[],
        multiset{Entry(0, StartTimeout(a))}, multiset{}, [b], [], None, 0, 0)
  }

  /**
   * A queued unit waits for another to finish activating, in every state, exactly when its own `after` says so
   * (or names the unit itself, which then never starts). What the other declares, `before` included, is not asked.
   */
  lemma GateIsAfterAlone(a: Name, w: Unit, b: Name, u: Unit)
    requires a != b
    ensures (forall s | Behind(s, a, w, b, u) :: !OrderingSatisfied(s, b)) <==> a in u.deps.after || b in u.deps.after
  {
    if a !in u.deps.after && b !in u.deps.after {
      var s := Situation(a, w, b, u);
      assert Behind(s, a, w, b, u) && OrderingSatisfied(s, b);
    }
  }

  // ----- What a start can raise -----

  /** Definitions stay, the queue only shrinks, and every unit but `n` is as it was or quiet. */
  ghost predicate RaisesOnly(s: Sup, t: Sup, n: Name)
  {
    && t.instances.Keys == s.instances.Keys
    && (forall x | x in s.instances :: t.instances[x].unit == s.instances[x].unit)
    && (forall x | x in t.pending :: x in s.pending)
    && (forall x | x in s.instances && x != n :: t.instances[x] == s.instances[x] || Quiet(t.instances[x]))
  }

  ghost predicate LowersOnly(s: Sup, t: Sup, n: Name)
  {
    RaisesOnly(s, t, n) && forall x | Up(t, x) :: Up(s, x)
  }

  lemma LowersTransitive(s: Sup, t: Sup, u: Sup, n: Name)
    requires LowersOnly(s, t, n) && LowersOnly(t, u, n)
    ensures LowersOnly(s, u, n)
  {
  }

  lemma StopLowersOnly(s: Sup, x: Name, n: Name, k: Kernel)
    ensures LowersOnly(s, Stop(s, x, Requested, k), n) && !Up(Stop(s, x, Requested, k), x)
  {
    StopTouches(s, x, Requested, k);
    StopShrinks(s, x, Requested, k);
  }

  lemma {:induction false} StopConflictsQuiets(s: Sup, names: seq<Name>, n: Name, k: Kernel)
    ensures LowersOnly(s, StopConflicts(s, names, k), n) && forall x | x in names :: !Up(StopConflicts(s, names, k), x)
    decreases |names|
  {
    if names != [] {
      var mid := if Busy(s, names[0]) then Stop(s, names[0], Requested, k) else s;
      StopLowersOnly(s, names[0], n, k);
      assert LowersOnly(s, mid, n) && !Up(mid, names[0]);
      hide LowersOnly, Stop, Busy, Up;
      StopConflictsQuiets(mid, names[1..], n, k);
      LowersTransitive(s, mid, StopConflicts(s, names, k), n);
      LoweredStaysDown(mid, StopConflicts(s, names, k), n, names[0]);
    }
  }

  lemma LoweredStaysDown(s: Sup, t: Sup, n: Name, x: Name)
    requires LowersOnly(s, t, n) && !Up(s, x)
    ensures !Up(t, x)
  {
  }

  lemma StopShrinks(s: Sup, n: Name, cause: StopCause, k: Kernel)
    ensures Stop(s, n, cause, k).pending == Without(s.pending, n)
  {
  }

  lemma TouchRaises(s: Sup, mid: Sup, t: Sup, n: Name)
    requires RaisesOnly(s, mid, n) && Touches(mid, t, n) && t.pending == mid.pending
    ensures RaisesOnly(s, t, n)
    ensures forall x | x != n && !Up(mid, x) :: !Up(t, x)
  {
  }

  lemma ConflictIsFound(s: Sup, n: Name, x: Name)
    requires x in s.instances && Conflict(s, n, x)
    ensures x in ConflictingWith(s, n)
  {
  }

  lemma StartRaisesOnly(s: Sup, n: Name, k: Kernel)
    ensures var t := Start(s, n, k);
            RaisesOnly(s, t, n) && (s.shutdown.None? ==> forall x | x != n && Conflict(s, n, x) :: !Up(t, x))
  {
    hide StopConflicts, Activate, ConflictingWith, Conflict, Touches;
    if s.shutdown.None? {
      var names := ConflictingWith(s, n);
      var mid, t := StopConflicts(s, names, k), Start(s, n, k);
      StopConflictsQuiets(s, names, n, k);
      assert RaisesOnly(s, mid, n);
      ActivateTouches(mid, n, k);
      TouchRaises(s, mid, t, n);
      hide RaisesOnly, Start;
      forall x | x != n && Conflict(s, n, x) ensures !Up(t, x) {
        if x in s.instances {
          ConflictIsFound(s, n, x);
        } else {
          UpIsKnown(s, t, n, x);
        }
      }
    }
  }

  lemma UpIsKnown(s: Sup, t: Sup, n: Name, x: Name)
    requires RaisesOnly(s, t, n) && x !in s.instances
    ensures !Up(t, x)
  {
  }

  lemma DequeueRaisesOnly(s: Sup, n: Name, k: Kernel)
    requires n in s.pending && s.shutdown.None?
    ensures var t := Dequeue(s, n, k);
            && RaisesOnly(s, t, n)
            && (Up(t, n) ==> Up(s, n) || forall x | x != n && Conflict(s, n, x) :: !Up(t, x))
  {
    hide Start;
    StartRaisesOnly(s.(pending := Without(s.pending, n)), n, k);
  }

  // ----- The gate over a whole pump -----

  /** Once `b` is up, `a` is neither queued nor activating. */
  predicate Ordered(s: Sup, a: Name, b: Name)
  {
    Up(s, b) ==> a !in s.pending && !(a in s.instances && s.instances[a].state.Activating?)
  }

  /** Taking `n` off the queue keeps the order: `b` comes up only when it has nothing to wait for. */
  lemma OrderedStep(s: Sup, t: Sup, n: Name, a: Name, b: Name)
    requires a != b && b in s.instances && Ordered(s, a, b) && RaisesOnly(s, t, n)
    requires n in s.pending && OrderingSatisfied(s, n)
    requires a in s.instances[b].unit.deps.after
    ensures Ordered(t, a, b)
  {
  }

  lemma {:induction false} PumpKeepsOrdered(s: Sup, k: Kernel, a: Name, b: Name)
    requires a != b && b in s.instances && Ordered(s, a, b) && a in s.instances[b].unit.deps.after
    ensures Ordered(Pump(s, k), a, b)
    decreases |s.pending|
  {
    hide Ordered, RaisesOnly, Dequeue, OrderingSatisfied, Up;
    if s.shutdown.None? {
      match NextStartable(s, s.pending)
      case None =>
      case Some(n) =>
        var mid := Dequeue(s, n, k);
        DequeueRaisesOnly(s, n, k);
        OrderedStep(s, mid, n, a, b);
        UnitsStay(s, mid, n, b);
        PumpKeepsOrdered(mid, k, a, b);
    } else {
      EmptiedIsOrdered(s, a, b);
    }
  }

  lemma EmptiedIsOrdered(s: Sup, a: Name, b: Name)
    requires Ordered(s, a, b)
    ensures Ordered(s.(pending := []), a, b)
  {
  }

  lemma UnitsStay(s: Sup, t: Sup, n: Name, b: Name)
    requires RaisesOnly(s, t, n) && b in s.instances
    ensures b in t.instances && t.instances[b].unit == s.instances[b].unit
  {
  }

  /** A queued unit that is after itself is never taken off the queue to be started. */
  lemma SelfStep(s: Sup, t: Sup, n: Name, b: Name)
    requires b in s.instances && !Up(s, b) && RaisesOnly(s, t, n) && b in s.instances[b].unit.deps.after
    requires n in s.pending && OrderingSatisfied(s, n)
    ensures !Up(t, b)
  {
  }

  lemma {:induction false} PumpNeverStartsAfterItself(s: Sup, k: Kernel, b: Name)
    requires b in s.instances && !Up(s, b) && b in s.instances[b].unit.deps.after
    ensures !Up(Pump(s, k), b)
    decreases |s.pending|
  {
    hide RaisesOnly, Dequeue, OrderingSatisfied;
    if s.shutdown.None? {
      match NextStartable(s, s.pending)
      case None =>
      case Some(n) =>
        var mid := Dequeue(s, n, k);
        DequeueRaisesOnly(s, n, k);
        SelfStep(s, mid, n, b);
        UnitsStay(s, mid, n, b);
        PumpNeverStartsAfterItself(mid, k, b);
    }
  }

  /** Two units that exclude each other, whose definitions say so. */
  predicate Rivals(s: Sup, a: Name, b: Name)
  {
    a != b && a in s.instances && b in s.instances && Conflict(s, a, b)
  }

  lemma ApartStep(s: Sup, t: Sup, n: Name, a: Name, b: Name)
    requires Rivals(s, a, b) && !(Up(s, a) && Up(s, b)) && RaisesOnly(s, t, n)
    requires Up(t, n) ==> Up(s, n) || forall x | x != n && Conflict(s, n, x) :: !Up(t, x)
    ensures Rivals(t, a, b) && !(Up(t, a) && Up(t, b))
  {
    assert Conflict(s, b, a);
  }

  lemma {:induction false} PumpKeepsApart(s: Sup, k: Kernel, a: Name, b: Name)
    requires Rivals(s, a, b) && !(Up(s, a) && Up(s, b))
    ensures !(Up(Pump(s, k), a) && Up(Pump(s, k), b))
    decreases |s.pending|
  {
    hide Rivals, RaisesOnly, Dequeue, Conflict;
    if s.shutdown.None? {
      match NextStartable(s, s.pending)
      case None =>
      case Some(n) =>
        var mid := Dequeue(s, n, k);
        DequeueRaisesOnly(s, n, k);
        ApartStep(s, mid, n, a, b);
        PumpKeepsApart(mid, k, a, b);
    }
  }

  /**
   * In a state that keeps what every run keeps, `b` is queued and not up; when `pump` returns, `b` is up and `a` is
   * activating.
   */
  ghost predicate Overtakes(s: Sup, k: Kernel, a: Name, w: Unit, b: Name, u: Unit)
  {
    && Safe(s, [], []) && Distinct(s.order) && InOrder(s.pending, s.order) && s.shutdown.None? && !Up(s, b)
    && a in s.instances && s.instances[a].unit == w && b in s.instances && s.instances[b].unit == u && b in s.pending
    && a in Pump(s, k).instances && Pump(s, k).instances[a].state.Activating?
    && Up(Pump(s, k), b)
  }

  predicate Excludes(a: Name, w: Unit, b: Name, u: Unit)
  {
    a in u.deps.conflicts || b in w.deps.conflicts
  }

  /** What holds `b` back until `a` has finished activating, or leaves nothing to be held back from. */
  predicate HeldBack(a: Name, w: Unit, b: Name, u: Unit)
  {
    !Waits(w) || a in u.deps.after || b in u.deps.after || Excludes(a, w, b, u)
  }

  /**
   * Over a whole `pump`: no queued unit comes up while `a` is activating, in any state that keeps what every run keeps,
   * exactly when `a` never takes time to activate, the unit's own `after` names `a` (or itself), or the two conflict.
   * `before` decides nothing.
   */
  lemma NeverOvertakenExactlyWhen(a: Name, w: Unit, b: Name, u: Unit)
    requires a != b && w.Valid() && u.Valid()
    ensures (forall s, k :: !Overtakes(s, k, a, w, b, u)) <==> HeldBack(a, w, b, u)
  {
    if HeldBack(a, w, b, u) {
      forall s, k ensures !Overtakes(s, k, a, w, b, u) {
        NotOvertaken(s, k, a, w, b, u);
      }
    } else {
      SituationOvertakes(a, w, b, u);
    }
  }

  lemma NotOvertaken(s: Sup, k: Kernel, a: Name, w: Unit, b: Name, u: Unit)
    requires a != b && HeldBack(a, w, b, u)
    ensures !Overtakes(s, k, a, w, b, u)
  {
    hide Pump, Safe;
    if Overtakes(s, k, a, w, b, u) {
      if a in u.deps.after {
        PumpKeepsOrdered(s, k, a, b);
      } else if b in u.deps.after {
        PumpNeverStartsAfterItself(s, k, b);
      } else if !Waits(w) {
        NeverActivating(s, k, a);
      } else {
        PumpKeepsApart(s, k, a, b);
      }
    }
  }

  /** A unit that takes no time to come up is never found activating. */
  lemma NeverActivating(s: Sup, k: Kernel, a: Name)
    requires Safe(s, [], []) && a in s.instances && !Waits(s.instances[a].unit)
    ensures a in Pump(s, k).instances ==> !Pump(s, k).instances[a].state.Activating?
  {
    hide Pump;
    var t := Pump(s, k);
    PumpKeeps(s, k);
    PumpTidy(s, k);
    assert a in t.instances && Watched(DueOf(t, [], []), a, t.instances[a]);
  }

  /** Every start that can succeed does. */
  const WILLING: Kernel := (i: nat) => Answer(0, 0, true, true, Some(2), true)

  lemma {:induction false} NothingToStop(s: Sup, names: seq<Name>, k: Kernel)
    requires forall x | x in names :: !Busy(s, x)
    ensures StopConflicts(s, names, k) == s
    decreases |names|
  {
    if names != [] {
      assert names[0] in names;
      NothingToStop(s, names[1..], k);
    }
  }

  lemma SituationOvertakes(a: Name, w: Unit, b: Name, u: Unit)
    requires a != b && w.Valid() && u.Valid() && !HeldBack(a, w, b, u)
    ensures Overtakes(Situation(a, w, b, u), WILLING, a, w, b, u)
  {
    var s := Situation(a, w, b, u);
    SituationIsSafe(a, w, b, u);
    SituationPumps(a, w, b, u);
  }

  lemma SituationIsSafe(a: Name, w: Unit, b: Name, u: Unit)
    requires a != b && w.Valid() && u.Valid() && Waits(w)
    ensures Safe(Situation(a, w, b, u), [], [])
  {
    var s := Situation(a, w, b, u);
    assert Entry(0, StartTimeout(a)) in s.heap;
    assert Watched(DueOf(s, [], []), a, s.instances[a]);
    assert Watched(DueOf(s, [], []), b, s.instances[b]);
  }

  lemma SituationPumps(a: Name, w: Unit, b: Name, u: Unit)
    requires a != b && a !in u.deps.after && b !in u.deps.after && !Excludes(a, w, b, u)
    ensures var s := Situation(a, w, b, u);
            var t := Pump(s, WILLING);
            && t == Activate(s.(pending := []), b, WILLING)
            && a in t.instances && t.instances[a] == s.instances[a] && Up(t, b)
  {
    hide ConflictingWith, Activate;
    var s := Situation(a, w, b, u);
    var t := s.(pending := Without(s.pending, b));
    assert t.pending == [];
    forall x | x in ConflictingWith(t, b) ensures !Busy(t, x) {
      if x in t.instances { assert Conflict(t, b, x); }
    }
    NothingToStop(t, ConflictingWith(t, b), WILLING);
    assert NextStartable(s, s.pending) == Some(b);
    assert Dequeue(s, b, WILLING) == Activate(t, b, WILLING);
    assert NextStartable(Activate(t, b, WILLING), []) == None;
    ActivateTouches(t, b, WILLING);
    ActivationRaises(t, b, WILLING);
  }

  lemma ActivationRaises(s: Sup, n: Name, k: Kernel)
    requires n in s.instances && n in s.cgroups
    requires k(s.asked).limitsApplied && k(s.asked).outputOpened && k(s.asked).spawned.Some?
    ensures Up(Activate(s, n, k), n)
  {
    if s.instances[n].unit.IsService() {
      LaunchDecides(Drew(s, k), n, s.instances[n].unit.kind.service, k(s.asked));
    }
  }

  // ----- A boot that overtakes -----

  /** Nothing orders the unit, nothing it requires can have failed, and nothing about starting it can. */
  predicate Free(u: Unit)
  {
    && u.deps.after == [] && u.deps.needs == [] && u.deps.conflicts == []
    && (u.IsService() ==> !u.kind.service.limited && u.kind.service.output.Console?)
  }

  predicate AllFree(s: Sup)
  {
    forall x | x in s.instances :: Free(s.instances[x].unit)
  }

  predicate Spawning(k: Kernel, i: nat)
  {
    k(i).spawned.Some?
  }

  /** Where a start that succeeds leaves a unit. */
  predicate Started(r: Runtime)
  {
    if Waits(r.unit) then r.state.Activating? else r.state.Active?
  }

  lemma FreeStarts(s: Sup, n: Name, k: Kernel)
    requires AllFree(s) && n in s.instances && n in s.pending && s.shutdown.None? && Spawning(k, s.asked)
    ensures var t := Dequeue(s, n, k);
            && t == Activate(s.(pending := Without(s.pending, n)), n, k)
            && Touches(s.(pending := t.pending), t, n) && t.pending == Without(s.pending, n) && AllFree(t)
            && n in t.instances && Started(t.instances[n])
  {
    hide ConflictingWith, Activate, Touches;
    var mid := s.(pending := Without(s.pending, n));
    forall x | x in ConflictingWith(mid, n) ensures !Busy(mid, x) {
      if x in mid.instances { assert Conflict(mid, n, x); }
    }
    NothingToStop(mid, ConflictingWith(mid, n), k);
    ActivateTouches(mid, n, k);
    FreeActivates(mid, n, k);
    TouchStaysFree(mid, Activate(mid, n, k), n);
  }

  lemma TouchStaysFree(s: Sup, t: Sup, n: Name)
    requires AllFree(s) && Touches(s, t, n)
    ensures AllFree(t)
  {
  }

  lemma FreeActivates(s: Sup, n: Name, k: Kernel)
    requires n in s.instances && Free(s.instances[n].unit) && Spawning(k, s.asked)
    ensures n in Activate(s, n, k).instances && Started(Activate(s, n, k).instances[n])
  {
    ActivateTouches(s, n, k);
  }

  /** A queue of free units empties in one pump, each of them started. */
  lemma {:induction false} FreePump(s: Sup, k: Kernel, n: Name)
    requires AllFree(s) && s.shutdown.None? && n in s.instances && forall i: nat :: Spawning(k, i)
    requires n in s.pending || Started(s.instances[n])
    ensures n in Pump(s, k).instances && Started(Pump(s, k).instances[n])
    decreases |s.pending|
  {
    hide Dequeue, OrderingSatisfied, Started, AllFree, Touches;
    if n in s.pending { FreeIsStartable(s, n); }
    match NextStartable(s, s.pending)
    case None =>
    case Some(x) =>
      QueuedIsKnown(s, x);
      FreeStarts(s, x, k);
      OthersStay(s, Dequeue(s, x, k), x, n);
      FreePump(Dequeue(s, x, k), k, n);
  }

  lemma FreeIsStartable(s: Sup, n: Name)
    requires AllFree(s) && n in s.instances
    ensures OrderingSatisfied(s, n)
  {
  }

  lemma QueuedIsKnown(s: Sup, x: Name)
    requires OrderingSatisfied(s, x)
    ensures x in s.instances
  {
  }

  lemma OthersStay(s: Sup, t: Sup, x: Name, n: Name)
    requires Touches(s.(pending := t.pending), t, x) && n in s.instances
    ensures n in t.instances && (n != x ==> t.instances[n] == s.instances[n])
  {
  }

  /**
   * One boot, over every set of units that nothing holds up, every order the resolver may plan for them and every
   * kernel that lets the starts succeed: it ends with each planned unit up, and with each that takes time to come up
   * still activating, whatever the units say in `before`.
   */
  lemma BootOvertakes(units: UnitSet, order: seq<Name>, cgroups: seq<Name>, sockets: seq<Bound>, k: Kernel, n: Name)
    requires (forall x | x in units :: Free(units[x])) && IsPlan(units, DEFAULT_UNIT, order) && n in order
    requires forall i: nat :: Spawning(k, i)
    ensures var s := Loaded(units, order, cgroups, sockets);
            var t := Run(s, [BootEvent], k);
            && PossibleRun(s, [BootEvent], k)
            && Up(t, n) && t.instances[n].unit == units[n]
            && (t.instances[n].state.Activating? <==> Waits(units[n]))
  {
    hide Pump, IsPlan, Free;
    var s := Loaded(units, order, cgroups, sockets).(pending := order);
    BootIsPump(Loaded(units, order, cgroups, sockets), k);
    PlanIsLoaded(units, order, n);
    FreePump(s, k, n);
    PumpKeepsUnits(s, k);
  }

  lemma PlanIsLoaded(units: UnitSet, order: seq<Name>, n: Name)
    requires IsPlan(units, DEFAULT_UNIT, order) && n in order
    ensures n in units
  {
  }

  lemma BootIsPump(s: Sup, k: Kernel)
    ensures PossibleRun(s, [BootEvent], k) && Run(s, [BootEvent], k) == Pump(s.(pending := s.order), k)
  {
    hide Pump;
    assert [BootEvent][1..] == [];
  }

  lemma PumpKeepsUnits(s: Sup, k: Kernel)
    ensures forall n | n in s.instances ::
              n in Pump(s, k).instances && Pump(s, k).instances[n].unit == s.instances[n].unit
  {
    hide Pump;
    PumpTidy(s, k);
  }

  const DEFAULT := Unit(Deps([], ["a", "b"], [], [], []), TargetKind)
  const FIRST := Unit(Deps([], [], [], ["b"], []), ServiceKind(Service(Notify, Never, 0, 0, 0, None, Console, false)))
  const OTHER := Unit(Deps([], [], [], [], []), TargetKind)

  /** `default` wants `a` and `b`, and `a` says that it comes before `b`. */
  const UNITS: UnitSet := map["default" := DEFAULT, "a" := FIRST, "b" := OTHER]

  /**
   * The unit file format calls `before = ["b"]` on `a` the same as `after = ["a"]` on `b`. Booting these units, in
   * any order the resolver may plan, brings `b` up in the first `pump` with `a` still activating.
   */
  lemma BeforeIsNotAfter(order: seq<Name>, cgroups: seq<Name>, k: Kernel)
    requires IsPlan(UNITS, DEFAULT_UNIT, order) && forall i: nat :: Spawning(k, i)
    ensures var t := Run(Loaded(UNITS, order, cgroups, []), [BootEvent], k);
            && PossibleRun(Loaded(UNITS, order, cgroups, []), [BootEvent], k)
            && "a" in t.instances && t.instances["a"].state.Activating?
            && "b" in t.instances && t.instances["b"].state.Active?
            && "b" in UNITS["a"].deps.before
  {
    hide Run, PossibleRun, Loaded;
    UnitsClosure();
    BootOvertakes(UNITS, order, cgroups, [], k, "a");
    BootOvertakes(UNITS, order, cgroups, [], k, "b");
  }

  lemma UnitsClosure()
    ensures "a" in Closure(UNITS, DEFAULT_UNIT) && "b" in Closure(UNITS, DEFAULT_UNIT)
  {
    ClosureIsLeast(UNITS, DEFAULT_UNIT);
    var s := Closure(UNITS, DEFAULT_UNIT);
    assert PullsIn(UNITS, "default", "a") && PullsIn(UNITS, "default", "b");
  }

  /** There is such a plan. */
  lemma UnitsHaveAPlan()
    ensures IsPlan(UNITS, DEFAULT_UNIT, ["a", "default", "b"])
  {
    var wanted := {"default", "a", "b"};
    UnitsClosure();
    ClosureIsLeast(UNITS, DEFAULT_UNIT);
    assert ClosedFrom(UNITS, DEFAULT_UNIT, wanted);
    assert Closure(UNITS, DEFAULT_UNIT) == wanted;
  }
}
