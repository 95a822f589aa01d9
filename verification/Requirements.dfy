/** What `requires` does at run time: it looks once, when the unit's turn comes, for a failure that is there already. */
module Requirements {
  import opened Names
  import opened Wrappers
  import opened Units
  import opened Services
  import opened Supervision
  import opened SupervisionSafety
  import opened Boot
  import opened BeforeGate

  // ----- What the turns of other units leave alone -----

  /** Neither the unit nor its place in the queue, or out of it, has changed. */
  ghost predicate Untouched(s: Sup, t: Sup, y: Name)
  {
    && SameUnits(s, t) && t.shutdown == s.shutdown
    && y in s.instances && t.instances[y] == s.instances[y] && (y in t.pending <==> y in s.pending)
  }

  /** Nothing stops the unit for a conflict: it is down already, or it conflicts with nothing. */
  ghost predicate Spared(s: Sup, y: Name)
  {
    y in s.instances && (s.instances[y].Idle() || forall x | x != y :: !Conflict(s, x, y))
  }

  lemma UntouchedTransitive(s: Sup, t: Sup, u: Sup, y: Name)
    requires Untouched(s, t, y) && Untouched(t, u, y)
    ensures Untouched(s, u, y)
  {
  }

  lemma SparedStays(s: Sup, t: Sup, y: Name)
    requires Untouched(s, t, y) && Spared(s, y)
    ensures Spared(t, y)
  {
    forall x | x != y && !Conflict(s, x, y) ensures !Conflict(t, x, y) {
    }
  }

  lemma StopLeavesOthers(s: Sup, x: Name, k: Kernel, y: Name)
    requires y in s.instances && x != y
    ensures Untouched(s, Stop(s, x, Requested, k), y)
  {
    StopTouches(s, x, Requested, k);
  }

  lemma {:induction false} StopConflictsSpares(s: Sup, names: seq<Name>, k: Kernel, y: Name)
    requires y in s.instances && (y in names ==> s.instances[y].Idle())
    ensures Untouched(s, StopConflicts(s, names, k), y)
    decreases |names|
  {
    hide Stop;
    if names != [] {
      var mid := if Busy(s, names[0]) then Stop(s, names[0], Requested, k) else s;
      if names[0] != y { StopLeavesOthers(s, names[0], k, y); }
      StopConflictsSpares(mid, names[1..], k, y);
      UntouchedTransitive(s, mid, StopConflicts(s, names, k), y);
    }
  }

  lemma StartSpares(s: Sup, x: Name, k: Kernel, y: Name)
    requires Spared(s, y) && x != y
    ensures Untouched(s, Start(s, x, k), y)
  {
    hide StopConflicts, Activate, ConflictingWith;
    if s.shutdown.None? {
      var mid := StopConflicts(s, ConflictingWith(s, x), k);
      if !s.instances[y].Idle() { assert !Conflict(s, x, y); }
      StopConflictsSpares(s, ConflictingWith(s, x), k, y);
      ActivateTouches(mid, x, k);
    }
  }

  lemma DequeueSpares(s: Sup, x: Name, k: Kernel, y: Name)
    requires Spared(s, y) && x != y && x in s.pending && x in s.instances
    ensures Untouched(s, Dequeue(s, x, k), y)
  {
    hide Start;
    var mid := s.(pending := Without(s.pending, x));
    assert Untouched(s, mid, y);
    SparedStays(s, mid, y);
    if RequirementFailed(mid, x) {
      PutTouches(mid, Dequeue(s, x, k), x, mid.instances[x].FailedToStart());
    } else {
      StartSpares(mid, x, k, y);
      UntouchedTransitive(s, mid, Start(mid, x, k), y);
    }
  }

  /** A stop that is asked for fails nothing, and takes nothing out of failure that is down already. */
  lemma StopFailsNothing(s: Sup, x: Name, k: Kernel, y: Name)
    requires y in s.instances && Busy(s, x)
    ensures var t := Stop(s, x, Requested, k);
            && y in t.instances && (t.instances[y].state.Failed? <==> s.instances[y].state.Failed?)
            && (y !in s.pending ==> y !in t.pending)
  {
    StoppedIsNotFailed(s, x, k);
    hide Stop;
    StopTouches(s, x, Requested, k);
    StopArms(s, x, Requested, k);
  }

  lemma StoppedIsNotFailed(s: Sup, x: Name, k: Kernel)
    requires Busy(s, x)
    ensures x in Stop(s, x, Requested, k).instances && !Stop(s, x, Requested, k).instances[x].state.Failed?
  {
  }

  lemma {:induction false} StopConflictsFailsNothing(s: Sup, names: seq<Name>, k: Kernel, y: Name)
    requires y in s.instances
    ensures var t := StopConflicts(s, names, k);
            && y in t.instances && (t.instances[y].state.Failed? <==> s.instances[y].state.Failed?)
            && (y !in s.pending ==> y !in t.pending)
    decreases |names|
  {
    hide Stop;
    if names != [] {
      var mid := if Busy(s, names[0]) then Stop(s, names[0], Requested, k) else s;
      if Busy(s, names[0]) { StopFailsNothing(s, names[0], k, y); }
      StopConflictsFailsNothing(mid, names[1..], k, y);
    }
  }

  /** A unit that is not queued stays that way while others have their turns, and neither fails nor recovers. */
  lemma DequeueFailsNoOther(s: Sup, x: Name, k: Kernel, y: Name)
    requires x in s.pending && x in s.instances && y in s.instances && x != y && y !in s.pending
    ensures var t := Dequeue(s, x, k);
            y in t.instances && y !in t.pending && (t.instances[y].state.Failed? <==> s.instances[y].state.Failed?)
  {
    hide StopConflicts, Activate, ConflictingWith;
    var mid := s.(pending := Without(s.pending, x));
    if !RequirementFailed(mid, x) && s.shutdown.None? {
      StopConflictsFailsNothing(mid, ConflictingWith(mid, x), k, y);
      ActivateTouches(StopConflicts(mid, ConflictingWith(mid, x), k), x, k);
    }
  }

  // ----- The turn of one unit -----

  /** Turns are first come, first served: every queued unit before the one that is taken is still waiting. */
  lemma {:induction false} FirstStartableIsTaken(s: Sup, names: seq<Name>, n: Name)
    requires NextStartable(s, names) == Some(n)
    ensures exists i :: 0 <= i < |names| && names[i] == n && forall j | 0 <= j < i :: !OrderingSatisfied(s, names[j])
    decreases |names|
  {
    hide OrderingSatisfied;
    if OrderingSatisfied(s, names[0]) {
      assert names[0] == n;
    } else {
      FirstStartableIsTaken(s, names[1..], n);
      var i :| 0 <= i < |names[1..]| && names[1..][i] == n
               && forall j | 0 <= j < i :: !OrderingSatisfied(s, names[1..][j]);
      forall j | 0 <= j < i + 1 ensures !OrderingSatisfied(s, names[j]) {
        if j > 0 { assert names[j] == names[1..][j - 1]; }
      }
      assert names[i + 1] == n;
    }
  }

  /** The state in which `pump` takes `n` off the queue, if it ever does. */
  ghost function Turn(s: Sup, k: Kernel, n: Name): (m: Option<Sup>)
    ensures m.Some? ==> n in m.value.pending
    decreases |s.pending|
  {
    if s.shutdown.Some? then None
    else
      match NextStartable(s, s.pending)
      case None => None
      case Some(x) => if x == n then Some(s) else Turn(Dequeue(s, x, k), k, n)
  }

  lemma StartableIsKnown(s: Sup, x: Name)
    requires OrderingSatisfied(s, x)
    ensures x in s.instances
  {
  }

  /** A queued unit that nothing stops either waits on, untouched, or has its turn as it was. */
  lemma {:induction false} TurnComes(s: Sup, k: Kernel, n: Name)
    requires s.shutdown.None? && Spared(s, n) && n in s.pending
    ensures match Turn(s, k, n)
            case None => Untouched(s, Pump(s, k), n)
            case Some(m) => Untouched(s, m, n) && Spared(m, n) && Pump(s, k) == Pump(Dequeue(m, n, k), k)
    decreases |s.pending|
  {
    hide Dequeue, OrderingSatisfied, Spared, Untouched;
    match NextStartable(s, s.pending)
    case None => UntouchedBy(s, n);
    case Some(x) =>
      StartableIsKnown(s, x);
      if x == n {
        UntouchedBy(s, n);
      } else {
        var mid := Dequeue(s, x, k);
        DequeueSpares(s, x, k, n);
        SparedStays(s, mid, n);
        UntouchedKeepsQueued(s, mid, n);
        TurnComes(mid, k, n);
        match Turn(mid, k, n)
        case None => UntouchedTransitive(s, mid, Pump(mid, k), n);
        case Some(m) => UntouchedTransitive(s, mid, m, n);
      }
  }

  lemma UntouchedBy(s: Sup, n: Name)
    requires Spared(s, n)
    ensures Untouched(s, s, n)
  {
  }

  lemma UntouchedKeepsQueued(s: Sup, t: Sup, n: Name)
    requires Untouched(s, t, n)
    ensures n in s.pending <==> n in t.pending
    ensures t.shutdown == s.shutdown
  {
  }

  /** Out of the queue and spared, a unit is as the rest of the pump found it. */
  lemma {:induction false} PumpSpares(s: Sup, k: Kernel, n: Name)
    requires s.shutdown.None? && Spared(s, n) && n !in s.pending
    ensures Untouched(s, Pump(s, k), n)
    decreases |s.pending|
  {
    hide Dequeue, OrderingSatisfied, Spared, Untouched;
    match NextStartable(s, s.pending)
    case None => UntouchedBy(s, n);
    case Some(x) =>
      StartableIsKnown(s, x);
      var mid := Dequeue(s, x, k);
      DequeueSpares(s, x, k, n);
      SparedStays(s, mid, n);
      UntouchedKeepsQueued(s, mid, n);
      PumpSpares(mid, k, n);
      UntouchedTransitive(s, mid, Pump(mid, k), n);
  }

  // ----- A failure that is there already -----

  /** `dep` has failed and nothing is going to start it. */
  predicate Dead(s: Sup, dep: Name)
  {
    dep in s.instances && s.instances[dep].state.Failed? && dep !in s.pending
  }

  lemma {:induction false} DeadAtTurn(s: Sup, k: Kernel, n: Name, dep: Name)
    requires s.shutdown.None? && n in s.pending && n in s.instances && dep in s.instances && dep !in s.pending
    ensures var m := Turn(s, k, n);
            m.Some? ==> dep in m.value.instances && dep !in m.value.pending
                        && (m.value.instances[dep].state.Failed? <==> s.instances[dep].state.Failed?)
    decreases |s.pending|
  {
    hide OrderingSatisfied;
    match NextStartable(s, s.pending)
    case None =>
    case Some(x) =>
      StartableIsKnown(s, x);
      if x != n {
        DequeueFailsNoOther(s, x, k, dep);
        hide Dequeue;
        if n in Dequeue(s, x, k).pending {
          DequeueKnows(s, x, k, n);
          DeadAtTurn(Dequeue(s, x, k), k, n, dep);
        } else {
          NoTurnUnqueued(Dequeue(s, x, k), k, n);
        }
      }
  }

  lemma DequeueKnows(s: Sup, x: Name, k: Kernel, n: Name)
    requires x in s.pending && n in s.instances
    ensures n in Dequeue(s, x, k).instances
  {
    hide Dequeue;
    DequeueTidy(s, x, k);
  }

  lemma NoTurnUnqueued(s: Sup, k: Kernel, n: Name)
    requires n !in s.pending
    ensures Turn(s, k, n).None?
  {
    hide Dequeue;
    if Turn(s, k, n).Some? { TurnIsQueued(s, k, n); }
  }

  lemma {:induction false} TurnIsQueued(s: Sup, k: Kernel, n: Name)
    requires Turn(s, k, n).Some?
    ensures n in s.pending
    decreases |s.pending|
  {
    hide Dequeue;
    match NextStartable(s, s.pending)
    case Some(x) =>
      if x != n {
        TurnIsQueued(Dequeue(s, x, k), k, n);
        DequeueShrinks(s, x, k);
      }
  }

  lemma DequeueShrinks(s: Sup, x: Name, k: Kernel)
    requires x in s.pending && s.shutdown.None?
    ensures forall y | y in Dequeue(s, x, k).pending :: y in s.pending
  {
    hide Dequeue;
    DequeueRaisesOnly(s, x, k);
  }

  /**
   * A queued unit that is down fails when something it requires has failed and is not about to be started again:
   * however long `pump` goes on, the unit never comes up. Unless its ordering keeps it waiting as it was, it ends
   * Failed.
   */
  lemma FailedRequirementFails(s: Sup, k: Kernel, n: Name, dep: Name)
    requires s.shutdown.None? && n in s.pending && n in s.instances && s.instances[n].Idle()
    requires dep in s.instances[n].unit.deps.needs && Dead(s, dep)
    ensures var t := Pump(s, k);
            && n in t.instances && !Up(t, n)
            && (n in t.pending ==> t.instances[n] == s.instances[n])
            && (n !in t.pending ==> t.instances[n].state.Failed? && t.instances[n].child.None?)
  {
    hide Pump, Turn;
    var t := Pump(s, k);
    TurnComes(s, k, n);
    DeadAtTurn(s, k, n, dep);
    match Turn(s, k, n)
    case None =>
    case Some(m) =>
      var after := Dequeue(m, n, k);
      FailsAtTurn(m, n, k, dep);
      PumpSpares(after, k, n);
  }

  lemma FailsAtTurn(m: Sup, n: Name, k: Kernel, dep: Name)
    requires m.shutdown.None? && n in m.pending && n in m.instances
    requires dep in m.instances[n].unit.deps.needs && dep in m.instances && m.instances[dep].state.Failed?
    ensures var t := Dequeue(m, n, k);
            && t.shutdown.None? && n !in t.pending && n in t.instances
            && t.instances[n].unit == m.instances[n].unit
            && t.instances[n].state.Failed? && t.instances[n].child.None? && Spared(t, n)
  {
    hide Start;
    assert RequirementFailed(m.(pending := Without(m.pending, n)), n);
  }

  // ----- Otherwise it is started -----

  /** Nothing else excludes the unit, whichever side would say so. */
  ghost predicate Unopposed(s: Sup, n: Name)
  {
    forall x | x != n :: !Conflict(s, x, n)
  }

  /**
   * What a service has to be given to be started: a cgroup with its limits if it declares any, its output unless that
   * is the console, and a process.
   */
  predicate Provided(m: Sup, n: Name, service: Service, a: Answer)
  {
    && (service.limited ==> n in m.cgroups && a.limitsApplied)
    && (!service.output.Console? ==> a.outputOpened)
    && a.spawned.Some?
  }

  predicate Allowed(m: Sup, n: Name, k: Kernel)
    requires n in m.instances
  {
    m.instances[n].unit.IsService() ==> Provided(m, n, m.instances[n].unit.kind.service, k(m.asked))
  }

  lemma StartUnopposed(s: Sup, n: Name, k: Kernel)
    requires s.shutdown.None? && n in s.instances && s.instances[n].Idle() && Unopposed(s, n)
    ensures Start(s, n, k) == Activate(s, n, k)
  {
    hide Activate, ConflictingWith, Conflict;
    forall x | x in ConflictingWith(s, n) ensures !Busy(s, x) {
      if x in s.instances {
        ConflictsBothWays(s, n, x);
      }
    }
    NothingToStop(s, ConflictingWith(s, n), k);
  }

  lemma ConflictsBothWays(s: Sup, n: Name, x: Name)
    ensures Conflict(s, n, x) <==> Conflict(s, x, n)
  {
  }

  /** A launch or an activation leaves a unit that was allowed up, and one that was not Failed. */
  lemma ActivateDecides(s: Sup, n: Name, k: Kernel)
    requires n in s.instances
    ensures var t := Activate(s, n, k);
            && n in t.instances && Touches(s, t, n) && t.pending == s.pending
            && (Allowed(s, n, k) ==> Started(t.instances[n]))
            && (!Allowed(s, n, k) ==> t.instances[n].state.Failed?)
  {
    ActivateTouches(s, n, k);
  }

  lemma StartsAtTurn(m: Sup, n: Name, k: Kernel)
    requires m.shutdown.None? && n in m.pending && n in m.instances && m.instances[n].Idle() && Unopposed(m, n)
    requires forall dep | dep in m.instances[n].unit.deps.needs ::
               dep in m.instances ==> !m.instances[dep].state.Failed?
    ensures var t := Dequeue(m, n, k);
            && t.shutdown.None? && n !in t.pending && n in t.instances && Unopposed(t, n)
            && t.instances[n].unit == m.instances[n].unit
            && (if Allowed(m, n, k) then Started(t.instances[n]) else t.instances[n].state.Failed?)
  {
    hide Activate, Start, Started;
    var mid := m.(pending := Without(m.pending, n));
    assert Unopposed(mid, n) by {
      assert forall x | x != n :: Conflict(mid, x, n) <==> Conflict(m, x, n);
    }
    StartUnopposed(mid, n, k);
    ActivateDecides(mid, n, k);
    assert forall x | x != n :: Conflict(Dequeue(m, n, k), x, n) <==> Conflict(m, x, n);
  }

  /**
   * A queued unit that is down and excluded by nothing: unless its ordering keeps it waiting as it was, it has its turn
   * in some state of the pump, and when `pump` returns it is up exactly when in that state nothing it requires had
   * failed and the kernel let it start. Otherwise it is Failed.
   */
  lemma TurnDecides(s: Sup, k: Kernel, n: Name)
    requires s.shutdown.None? && n in s.pending && n in s.instances && s.instances[n].Idle() && Unopposed(s, n)
    ensures var t := Pump(s, k);
            n in t.instances && t.instances[n].unit == s.instances[n].unit &&
            match Turn(s, k, n)
            case None => n in t.pending && t.instances[n] == s.instances[n]
            case Some(m) =>
              && n in m.instances && n !in t.pending
              && (Up(t, n) <==>
                    (forall dep | dep in s.instances[n].unit.deps.needs ::
                       dep in m.instances ==> !m.instances[dep].state.Failed?) && Allowed(m, n, k))
              && (if Up(t, n) then Started(t.instances[n]) else t.instances[n].state.Failed?)
  {
    hide Pump, Turn, Dequeue, Allowed, Conflict;
    TurnComes(s, k, n);
    match Turn(s, k, n)
    case None =>
    case Some(m) =>
      var after := Dequeue(m, n, k);
      UnopposedStays(s, m, n);
      if dep :| dep in m.instances[n].unit.deps.needs && dep in m.instances && m.instances[dep].state.Failed? {
        FailsAtTurn(m, n, k, dep);
      } else {
        StartsAtTurn(m, n, k);
      }
      PumpSpares(after, k, n);
  }

  lemma UnopposedStays(s: Sup, t: Sup, n: Name)
    requires SameUnits(s, t) && Unopposed(s, n)
    ensures Unopposed(t, n)
  {
    forall x | x != n ensures !Conflict(t, x, n) {
      assert !Conflict(s, x, n);
    }
  }

  /** Every start that can succeed does. */
  ghost predicate LetsAll(k: Kernel)
  {
    forall i: nat :: k(i).limitsApplied && k(i).outputOpened && k(i).spawned.Some?
  }

  /**
   * So with a kernel that lets every start succeed, and with nothing the unit requires still queued, a unit that gets
   * its turn comes up exactly when nothing it requires has failed. That a requirement is not up, or was never started,
   * makes no difference.
   */
  lemma RequirementsDecide(s: Sup, k: Kernel, n: Name)
    requires s.shutdown.None? && n in s.pending && n in s.instances && s.instances[n].Idle() && Unopposed(s, n)
    requires LetsAll(k)
    requires s.instances[n].unit.IsService() && s.instances[n].unit.kind.service.limited ==> n in s.cgroups
    requires forall dep | dep in s.instances[n].unit.deps.needs :: dep !in s.pending
    ensures var t := Pump(s, k);
            n in t.instances &&
            if n in t.pending then t.instances[n] == s.instances[n]
            else if exists dep | dep in s.instances[n].unit.deps.needs ::
                      dep in s.instances && s.instances[dep].state.Failed?
            then t.instances[n].state.Failed?
            else Up(t, n)
  {
    hide Pump, Turn, Conflict;
    TurnComes(s, k, n);
    TurnDecides(s, k, n);
    match Turn(s, k, n)
    case None =>
    case Some(m) =>
      assert Allowed(m, n, k);
      forall dep | dep in s.instances[n].unit.deps.needs
        ensures (dep in m.instances && m.instances[dep].state.Failed?) <==>
                (dep in s.instances && s.instances[dep].state.Failed?)
      {
        if dep in s.instances { DeadAtTurn(s, k, n, dep); }
      }
  }
}
