/** What holds of the supervisor at every event boundary of every run. */
module SupervisionTheorems {
  import opened Names
  import opened Wrappers
  import opened Units
  import opened Services
  import opened Alarms
  import opened Supervision
  import opened SupervisionSafety
  import opened SupervisionRuns
  import opened SupervisionEvents

  // ----- Control requests -----

  lemma RestartRequestKeeps(s: Sup, n: Name, k: Kernel)
    requires Safe(s, [], [])
    ensures Safe(Handle(s, RestartRequest(n), k).0, [], []) && Keeps(s, Handle(s, RestartRequest(n), k).0)
  {
    if n in s.instances && s.shutdown.None? {
      var mid := Stop(s, n, Requested, k);
      StopKeeps(s, n, Requested, k, [], []);
      RestartWhenStoppedKeeps(mid, n, k);
      KeepsTransitive(s, mid, RestartWhenStopped(mid, n, k));
    } else {
      SameKeeps(s, s, [], []);
    }
  }

  lemma RestartWhenStoppedKeeps(s: Sup, n: Name, k: Kernel)
    requires Safe(s, [], [])
    ensures Safe(RestartWhenStopped(s, n, k), [], []) && Keeps(s, RestartWhenStopped(s, n, k))
  {
    if n in s.instances && s.instances[n].Idle() {
      StartKeeps(s, n, k, [], []);
    } else {
      SameKeeps(s, RestartWhenStopped(s, n, k), [], []);
    }
  }

  /** What a reload leaves in the place of each unit. */
  lemma ReloadedAt(s: Sup, units: map<Name, Unit>, n: Name)
    requires n in Reloaded(s.instances, units)
    ensures var r := Reloaded(s.instances, units)[n];
            || (n in units && r == NewRuntime(units[n]))
            || (n in s.instances && r == s.instances[n])
  {
  }

  /** A running unit keeps the instance and the definition it was started with. */
  lemma RunningSurvivesReload(s: Sup, units: map<Name, Unit>, n: Name)
    requires Busy(s, n)
    ensures n in Reloaded(s.instances, units) && Reloaded(s.instances, units)[n] == s.instances[n]
  {
  }

  lemma NewIsWatched(due: Due, n: Name, u: Unit)
    requires u.Valid()
    ensures Watched(due, n, NewRuntime(u))
  {
  }

  lemma ReloadBounded(s: Sup, d: Directory)
    requires Bounded(s, [], []) && AllValid(d.units) && !d.broken
    ensures Bounded(Reload(s, d).0, [], [])
  {
    hide Watched, Reloaded;
    var t := Reload(s, d).0;
    forall n | n in t.instances ensures Watched(DueOf(t, [], []), n, t.instances[n]) {
      ReloadedAt(s, d.units, n);
      if n in d.units { NewIsWatched(DueOf(t, [], []), n, d.units[n]); }
      if n in s.instances { assert Watched(DueOf(s, [], []), n, s.instances[n]); }
    }
  }

  lemma ReloadCloses(s: Sup, d: Directory)
    requires Closed(s) && !d.broken
    ensures Closed(Reload(s, d).0) && Keeps(s, Reload(s, d).0)
  {
    hide Reloaded;
    var t := Reload(s, d).0;
    forall n | n in t.instances
      ensures || (t.instances[n].state.Inactive? && t.instances[n].child.None?)
              || (n in s.instances && t.instances[n] == s.instances[n])
    {
      ReloadedAt(s, d.units, n);
    }
  }

  lemma ReloadKeeps(s: Sup, d: Directory)
    requires Safe(s, [], []) && AllValid(d.units)
    ensures Safe(Reload(s, d).0, [], []) && Keeps(s, Reload(s, d).0)
  {
    hide Bounded, Exclusive, Closed, Keeps, Reloaded;
    if d.broken {
      SameKeeps(s, s, [], []);
    } else {
      ReloadBounded(s, d);
      ReloadExclusive(s, d);
      ReloadCloses(s, d);
    }
  }

  lemma ReloadExclusive(s: Sup, d: Directory)
    requires Exclusive(s) && !d.broken
    ensures Exclusive(Reload(s, d).0)
  {
    var t := Reload(s, d).0;
    forall a, b | a != b && Up(t, a) && Up(t, b) ensures !Conflict(t, a, b) {
      ReloadedAt(s, d.units, a);
      ReloadedAt(s, d.units, b);
      assert Up(s, a) && Up(s, b);
      assert !Conflict(s, a, b);
    }
  }

  lemma StartRequestKeeps(s: Sup, n: Name, k: Kernel)
    requires Safe(s, [], [])
    ensures Safe(Handle(s, StartRequest(n), k).0, [], []) && Keeps(s, Handle(s, StartRequest(n), k).0)
  {
    if n in s.instances && s.shutdown.None? {
      StartKeeps(s, n, k, [], []);
    } else {
      SameKeeps(s, s, [], []);
    }
  }

  lemma StopRequestKeeps(s: Sup, n: Name, k: Kernel)
    requires Safe(s, [], [])
    ensures Safe(Handle(s, StopRequest(n), k).0, [], []) && Keeps(s, Handle(s, StopRequest(n), k).0)
  {
    if n in s.instances {
      StopKeeps(s, n, Requested, k, [], []);
    } else {
      SameKeeps(s, s, [], []);
    }
  }

  lemma HandleKeeps(s: Sup, request: Request, k: Kernel)
    requires Safe(s, [], [])
    requires request.ReloadRequest? ==> AllValid(request.directory.units)
    ensures Safe(Handle(s, request, k).0, [], []) && Keeps(s, Handle(s, request, k).0)
  {
    match request
    case StartRequest(n) => StartRequestKeeps(s, n, k);
    case StopRequest(n) => StopRequestKeeps(s, n, k);
    case RestartRequest(n) => RestartRequestKeeps(s, n, k);
    case ReloadRequest(d) => ReloadKeeps(s, d);
    case _ => SameKeeps(s, s, [], []);
  }

  // ----- Beginning a shutdown -----

  lemma {:induction false} StopEachQuiets(s: Sup, names: seq<Name>, k: Kernel)
    requires Bounded(s, [], []) && Exclusive(s)
    ensures var t := StopEach(s, names, k);
            && Bounded(t, [], []) && Exclusive(t) && t.shutdown == s.shutdown && t.instances.Keys == s.instances.Keys
            && (forall n | n in s.instances && (n in names || Quiet(s.instances[n])) :: Quiet(t.instances[n]))
    decreases |names|
  {
    if names != [] {
      var mid := Stop(s, names[0], Requested, k);
      StopTouches(s, names[0], Requested, k);
      StopBounded(s, names[0], Requested, k, [], []);
      StopLowers(s, names[0], Requested, k);
      LoweringIsExclusive(s, mid);
      StopEachQuiets(mid, names[1..], k);
    }
  }

  /** Beginning a shutdown leaves every unit down or on its way. */
  lemma BeginShutdownCloses(s: Sup, action: Action, k: Kernel)
    requires Safe(s, [], [])
    ensures var t := BeginShutdown(s, action, k);
            && Safe(t, [], []) && t.shutdown.Some?
            && (s.shutdown.Some? ==> Keeps(s, t))
            && (s.shutdown.None? ==> t.shutdown == Some(Shutdown(action, k(s.asked).now)))
  {
    SameKeeps(s, s, [], []);
    if s.shutdown.None? {
      var begun := Drew(s, k).(shutdown := Some(Shutdown(action, k(s.asked).now)));
      LaterCovers(s, begun, [], []);
      forall n | n in begun.instances ensures Watched(DueOf(begun, [], []), n, begun.instances[n]) {
        assert Watched(DueOf(s, [], []), n, s.instances[n]);
      }
      assert forall a, b :: Up(begun, a) && Up(begun, b) && Conflict(begun, a, b) ==>
               Up(s, a) && Up(s, b) && Conflict(s, a, b);
      StopEachQuiets(begun, StopOrder(begun), k);
    }
  }

  // ----- Runs -----

  lemma StepKeeps(s: Sup, e: Event, k: Kernel)
    requires Safe(s, [], []) && Possible(s, e, k)
    ensures Safe(Step(s, e, k), [], [])
    ensures e.ShutdownEvent? ==> Step(s, e, k).shutdown.Some?
    ensures !e.ShutdownEvent? || s.shutdown.Some? ==> Keeps(s, Step(s, e, k))
  {
    hide Safe, Pump, ReapAll, OnCgroup, ReceiveAll, FireAll, FireWall, Start, Handle, BeginShutdown, IsExpiry;
    match e
    case BootEvent =>
      var mid := s.(pending := s.order);
      SameKeeps(s, mid, [], []);
      PumpKeeps(mid, k);
    case PumpEvent => PumpKeeps(s, k);
    case ChildEvent(reaped) => ReapAllKeeps(s, reaped, k);
    case CgroupEvent(id, populated) => OnCgroupKeeps(s, id, populated, k);
    case NotifyEvent(messages) => ReceiveAllKeeps(s, messages, k);
    case TimerEvent(fired, left) => TimerKeeps(s, fired, left, k);
    case WallEvent(stepped, fired, left) => WallKeeps(s, stepped, fired, left, k);
    case SocketEvent(id) =>
      SameKeeps(s, s, [], []);
      if id < |s.sockets| { StartKeeps(s, s.sockets[id].service, k, [], []); }
    case ControlEvent(request) => HandleKeeps(s, request, k);
    case ShutdownEvent(action) => BeginShutdownCloses(s, action, k);
  }

  lemma TimerKeeps(s: Sup, fired: seq<Entry>, left: multiset<Entry>, k: Kernel)
    requires Safe(s, [], []) && Possible(s, TimerEvent(fired, left), k)
    ensures Safe(Step(s, TimerEvent(fired, left), k), [], []) && Keeps(s, Step(s, TimerEvent(fired, left), k))
  {
    var drew := Drew(s, k);
    SameKeeps(s, drew, [], []);
    PoppedIsSafe(drew, k(s.asked).now, fired, left);
    FireAllKeeps(drew.(heap := left), AlarmsOf(fired), k);
  }

  lemma WallKeeps(s: Sup, stepped: bool, fired: seq<Entry>, left: multiset<Entry>, k: Kernel)
    requires Safe(s, [], []) && Possible(s, WallEvent(stepped, fired, left), k)
    ensures var t := Step(s, WallEvent(stepped, fired, left), k);
            Safe(t, [], []) && Keeps(s, t)
  {
    var drew := Drew(s, k);
    SameKeeps(s, drew, [], []);
    if stepped {
      assert AlarmsOf(fired) == [];
      assert drew.(wallHeap := left) == drew;
    } else {
      WallPoppedIsSafe(drew, k(s.asked).wall, fired, left);
      FireWallKeeps(drew.(wallHeap := left), AlarmsOf(fired), k);
    }
  }

  /** As loaded: every unit known, valid and never started. */
  ghost predicate Initial(s: Sup)
  {
    s.shutdown.None? &&
    forall n | n in s.instances :: s.instances[n] == NewRuntime(s.instances[n].unit) && s.instances[n].unit.Valid()
  }

  lemma {:induction false} RunKeeps(s: Sup, events: seq<Event>, k: Kernel)
    requires Safe(s, [], []) && PossibleRun(s, events, k)
    ensures Safe(Run(s, events, k), [], [])
    ensures s.shutdown.Some? ==> Keeps(s, Run(s, events, k))
    decreases |events|
  {
    hide Step;
    SameKeeps(s, s, [], []);
    if events != [] {
      var mid := Step(s, events[0], k);
      StepKeeps(s, events[0], k);
      RunKeeps(mid, events[1..], k);
      if s.shutdown.Some? { KeepsTransitive(s, mid, Run(s, events, k)); }
    }
  }

  /** The same event history, run in two parts. */
  lemma {:induction false} RunAppend(s: Sup, first: seq<Event>, second: seq<Event>, k: Kernel)
    requires PossibleRun(s, first + second, k)
    ensures PossibleRun(s, first, k) && PossibleRun(Run(s, first, k), second, k)
    ensures Run(s, first + second, k) == Run(Run(s, first, k), second, k)
    decreases |first|
  {
    hide Step;
    if first == [] {
      assert first + second == second;
    } else {
      assert (first + second)[0] == first[0] && (first + second)[1..] == first[1..] + second;
      RunAppend(Step(s, first[0], k), first[1..], second, k);
    }
  }

  /**
   * No transient state is unbounded: at every event boundary, whatever a unit
   * is waiting for, an alarm that ends the wait is queued, and it is due no
   * later than the unit's own bound from the latest moment the clock reported.
   */
  lemma NoWaitIsUnbounded(s: Sup, events: seq<Event>, k: Kernel, n: Name)
    requires Initial(s) && PossibleRun(s, events, k) && n in Run(s, events, k).instances
    ensures var t := Run(s, events, k);
            var r := t.instances[n];
            && (r.state.Activating? || r.state.Deactivating? ==> r.unit.IsService())
            && (r.state.Restarting? ==> HoldsBy(t.heap, RestartDue(n), t.clock + LongestBackoff(r.unit)))
            && (r.state.Activating? ==> HoldsBy(t.heap, StartTimeout(n), t.clock + r.unit.kind.service.startSec))
            && (r.state.Deactivating? ==>
                 r.killed || HoldsBy(t.heap, StopTimeout(n), t.clock + r.unit.kind.service.stopSec))
            && (r.state.Active? && r.Watchdog().Some? ==>
                 HoldsBy(t.heap, Alarm.WatchdogCheck(n), t.clock + r.Watchdog().value))
            && (r.state.Active? && r.unit.IsTimer() && r.unit.kind.schedule.Recurring() ==>
                 Holds(t.heap, TimerElapsed(n)) || Holds(t.wallHeap, TimerElapsed(n)))
  {
    hide Step;
    assert Safe(s, [], []);
    RunKeeps(s, events, k);
    var t := Run(s, events, k);
    assert Watched(DueOf(t, [], []), n, t.instances[n]);
  }

  /** Only a service is ever between states. */
  lemma OnlyServicesWait(s: Sup, events: seq<Event>, k: Kernel, n: Name)
    requires Initial(s) && PossibleRun(s, events, k) && n in Run(s, events, k).instances
    ensures var r := Run(s, events, k).instances[n];
            !r.unit.IsService() ==> r.state.Inactive? || r.state.Active? || r.state.Failed?
  {
    hide Step;
    assert Safe(s, [], []);
    RunKeeps(s, events, k);
    var t := Run(s, events, k);
    assert Watched(DueOf(t, [], []), n, t.instances[n]);
  }

  /** A process is only tracked for a unit that is coming up, up, or on its way down. */
  lemma OnlyLiveUnitsAreTracked(s: Sup, events: seq<Event>, k: Kernel, n: Name)
    requires Initial(s) && PossibleRun(s, events, k) && n in Run(s, events, k).instances
    ensures var r := Run(s, events, k).instances[n];
            r.child.Some? ==> r.state.Activating? || r.state.Active? || r.state.Deactivating?
  {
    hide Step;
    assert Safe(s, [], []);
    RunKeeps(s, events, k);
    var t := Run(s, events, k);
    assert Watched(DueOf(t, [], []), n, t.instances[n]);
  }

  /** Two units that conflict, whichever declares it, are never both activating or active. */
  lemma ConflictsNeverRunTogether(s: Sup, events: seq<Event>, k: Kernel, a: Name, b: Name)
    requires Initial(s) && PossibleRun(s, events, k) && a != b
    requires Conflict(Run(s, events, k), a, b)
    ensures !Up(Run(s, events, k), a) || !Up(Run(s, events, k), b)
  {
    hide Step;
    assert Safe(s, [], []);
    RunKeeps(s, events, k);
  }

  // ----- The alarms end the waits -----

  lemma {:induction false} StoppingKeepsNames(s: Sup, names: seq<Name>, k: Kernel)
    ensures StopConflicts(s, names, k).instances.Keys == s.instances.Keys
    decreases |names|
  {
    hide Stop;
    if names != [] {
      StopTouches(s, names[0], Requested, k);
      StoppingKeepsNames(if Busy(s, names[0]) then Stop(s, names[0], Requested, k) else s, names[1..], k);
    }
  }

  /** A launch decides the state, and one that leaves the unit activating bounds that by `start-sec` from the fork. */
  lemma LaunchDecides(s: Sup, n: Name, service: Service, a: Answer)
    requires n in s.instances
    ensures var t := Launch(s, n, service, a);
            n in t.instances &&
            if !Prepared(s, n, service, a) || a.spawned.None? then t.instances[n].state.Failed? && t.heap == s.heap
            else if service.ty.Simple? then t.instances[n].state.Active? && t.heap == s.heap
            else t.instances[n].state.Activating? && Entry(a.now + service.startSec, StartTimeout(n)) in t.heap
  {
  }

  lemma ActivationDecides(s: Sup, n: Name, k: Kernel)
    requires n in s.instances
    ensures var t := Activate(s, n, k);
            && n in t.instances
            && (t.instances[n].state.Active? || t.instances[n].state.Activating? || t.instances[n].state.Failed?)
  {
    hide Launch, Prepared;
    ActivateTouches(s, n, k);
    if s.instances[n].unit.IsService() {
      LaunchDecides(Drew(s, k), n, s.instances[n].unit.kind.service, k(s.asked));
    }
  }

  /** A restart that is due ends the backoff: the unit is up, coming up, or failed. */
  lemma RestartAlarmEndsBackoff(s: Sup, n: Name, k: Kernel)
    requires s.shutdown.None? && n in s.instances && s.instances[n].state.Restarting?
    ensures var t := Fire(s, RestartDue(n), k);
            && n in t.instances
            && (t.instances[n].state.Active? || t.instances[n].state.Activating? || t.instances[n].state.Failed?)
  {
    hide StopConflicts, Activate, ConflictingWith;
    StoppingKeepsNames(s, ConflictingWith(s, n), k);
    ActivationDecides(StopConflicts(s, ConflictingWith(s, n), k), n, k);
  }

  // ----- Shutdown -----

  function Stopping(s: Sup): set<Name>
  {
    set n | n in s.instances && s.instances[n].state.Deactivating?
  }

  /** The processes the supervisor is tracking, by unit. */
  function Tracked(s: Sup): map<Name, nat>
  {
    map n | n in s.instances && s.instances[n].child.Some? :: s.instances[n].child.value
  }

  /**
   * A shutdown closes and never reopens. Between any two later moments nothing
   * comes up, nothing is spawned, no unit starts stopping that was not stopping
   * already, and the supervisor is settled once none is, or once it is overdue.
   */
  lemma ShutdownCloses(s: Sup, before: seq<Event>, after: seq<Event>, k: Kernel, now: nat)
    requires Initial(s) && PossibleRun(s, before + after, k) && Run(s, before, k).shutdown.Some?
    ensures var t, u := Run(s, before, k), Run(s, before + after, k);
            && u.shutdown == t.shutdown
            && (forall n | n in u.instances :: Quiet(u.instances[n]))
            && Stopping(u) <= Stopping(t)
            && (forall n | n in Tracked(u) :: n in Tracked(t) && Tracked(u)[n] == Tracked(t)[n])
            && (Settled(u, now) == Some(t.shutdown.value.action) <==>
                 Stopping(u) == {} || t.shutdown.value.Overdue(now))
            && (Settled(u, now).Some? ==> Settled(u, now) == Some(t.shutdown.value.action))
  {
    hide Step;
    RunAppend(s, before, after, k);
    assert Safe(s, [], []);
    RunKeeps(s, before, k);
    var t, u := Run(s, before, k), Run(s, before + after, k);
    RunKeeps(t, after, k);
    assert Keeps(t, u);
    if Stopping(u) == {} {
      forall n | n in u.instances ensures u.instances[n].Idle() {
        assert n !in Stopping(u);
      }
    } else {
      var n :| n in Stopping(u);
      assert !u.instances[n].Idle();
    }
  }

  /** The event that begins it does begin it. */
  lemma ShutdownBegins(s: Sup, before: seq<Event>, action: Action, k: Kernel)
    requires Initial(s) && PossibleRun(s, before, k)
    ensures Run(s, before + [ShutdownEvent(action)], k).shutdown.Some?
    ensures PossibleRun(s, before + [ShutdownEvent(action)], k)
  {
    hide Step;
    assert Safe(s, [], []);
    RunKeeps(s, before, k);
    StepKeeps(Run(s, before, k), ShutdownEvent(action), k);
    RunOneMore(s, before, ShutdownEvent(action), k);
  }

  lemma {:induction false} RunOneMore(s: Sup, events: seq<Event>, e: Event, k: Kernel)
    requires PossibleRun(s, events, k) && Possible(Run(s, events, k), e, k)
    ensures PossibleRun(s, events + [e], k)
    ensures Run(s, events + [e], k) == Step(Run(s, events, k), e, k)
    decreases |events|
  {
    hide Step;
    if events == [] {
      assert events + [e] == [e];
      assert [e][1..] == [];
    } else {
      assert (events + [e])[0] == events[0] && (events + [e])[1..] == events[1..] + [e];
      RunOneMore(Step(s, events[0], k), events[1..], e, k);
    }
  }

  /** A loop that sleeps for `remaining` wakes overdue, so a unit that never stops cannot hold the machine. */
  lemma SleepingRemainingSettles(s: Sup, asleep: nat, awake: nat)
    requires s.shutdown.Some? && s.shutdown.value.started <= asleep
    requires awake >= asleep + s.shutdown.value.Remaining(asleep)
    ensures Settled(s, awake) == Some(s.shutdown.value.action)
  {
  }
}
