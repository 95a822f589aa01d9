/** The supervisor itself: the object whose methods update its state in place. */
module Supervisors {
  import opened Names
  import opened Wrappers
  import opened Units
  import opened Services
  import opened Alarms
  import opened Calendars
  import opened Graph
  import opened Resolver
  import opened Supervision
  import opened Boot

  /** What `reload` forgets: whatever has no file any more and nothing running. */
  function Kept(instances: map<Name, Runtime>, units: UnitSet): map<Name, Runtime>
  {
    map n | n in instances && (n in units || !instances[n].Idle()) :: instances[n]
  }

  lemma KeptAreReloaded(before: map<Name, Runtime>, now: map<Name, Runtime>, units: UnitSet)
    requires now.Keys == before.Keys + units.Keys
    requires forall n | n in now :: now[n] == if Replaced(before, units, n) then NewRuntime(units[n]) else before[n]
    ensures Kept(now, units) == Reloaded(before, units)
  {
  }

  function CgroupsFor(units: UnitSet, names: seq<Name>, creatable: set<Name>): seq<Name>
    requires forall n | n in names :: n in units
  {
    if names == [] then []
    else
      var n := names[|names| - 1];
      CgroupsFor(units, names[..|names| - 1], creatable) + if units[n].IsService() && n in creatable then [n] else []
  }

  function Copies(b: Bound, n: nat): seq<Bound>
  {
    if n == 0 then [] else Copies(b, n - 1) + [b]
  }

  function BoundFor(units: UnitSet, names: seq<Name>, binds: map<Name, nat>): seq<Bound>
  {
    if names == [] then []
    else
      var n := names[|names| - 1];
      BoundFor(units, names[..|names| - 1], binds) +
      if n in units && units[n].IsSocket() && n in binds then Copies(Bound(n, units[n].kind.activates), binds[n])
      else []
  }

  lemma NoneToMake(instances: map<Name, Runtime>, d: Directory)
    ensures NewCgroups(instances, d, []) == []
  {
  }

  class Supervisor {
    var instances: map<Name, Runtime>
    var order: seq<Name>
    const timers: Timers
    var cgroups: seq<Name>
    var sockets: seq<Bound>
    var pending: seq<Name>
    var pendingRestart: set<Name>
    var nextElapse: map<Name, Next>
    var shutdown: Option<Shutdown>

    /** How many answers have been drawn from outside. */
    var asked: nat

    /** The latest moment the monotonic clock has reported. */
    ghost var clock: nat

    /** The whole state as one value. */
    ghost function State(): Sup
      reads this, timers
    {
      Sup(instances, order, pending, pendingRestart, nextElapse, timers.heap, timers.wallHeap, cgroups, sockets,
          shutdown, asked, clock)
    }

    /** Load and resolve. A unit set that cannot be resolved is refused whole: known, but with nothing to start. */
    constructor (units: UnitSet, creatable: set<Name>, binds: map<Name, nat>)
      ensures fresh(timers)
      ensures State() == Loaded(units, order, cgroups, sockets)
      ensures Resolvable(units, DEFAULT_UNIT) ==> IsPlan(units, DEFAULT_UNIT, order)
      ensures !Resolvable(units, DEFAULT_UNIT) ==> order == []
      ensures cgroups == CgroupsFor(units, Sorted(units.Keys), creatable)
      ensures sockets == BoundFor(units, order, binds)
    {
      instances, order, pending := NewInstances(units), [], [];
      pendingRestart, nextElapse, cgroups, sockets, shutdown, asked, clock := {}, map[], [], [], None, 0, 0;
      timers := new Timers();
      new;
      Load(units, creatable, binds);
    }

    method Load(units: UnitSet, creatable: set<Name>, binds: map<Name, nat>)
      requires cgroups == [] && sockets == []
      modifies this`order, this`cgroups, this`sockets
      ensures Resolvable(units, DEFAULT_UNIT) ==> IsPlan(units, DEFAULT_UNIT, order)
      ensures !Resolvable(units, DEFAULT_UNIT) ==> order == []
      ensures cgroups == CgroupsFor(units, Sorted(units.Keys), creatable)
      ensures sockets == BoundFor(units, order, binds)
    {
      hide Sorted, CgroupsFor, BoundFor, IsPlan, Resolvable;
      order := StartOrder(units);
      MakeCgroups(units, creatable);
      BindSockets(units, binds);
    }

    /** The resolved order, or nothing to start at all. */
    static method StartOrder(units: UnitSet) returns (order: seq<Name>)
      ensures Resolvable(units, DEFAULT_UNIT) ==> IsPlan(units, DEFAULT_UNIT, order)
      ensures !Resolvable(units, DEFAULT_UNIT) ==> order == []
    {
      hide Resolvable, IsPlan;
      var plan := ResolveFrom(units, DEFAULT_UNIT);
      order := if plan.Ok? then plan.value.order else [];
    }

    /** A cgroup for every service the kernel would make one for, in name order. */
    method MakeCgroups(units: UnitSet, creatable: set<Name>)
      requires cgroups == []
      modifies this`cgroups
      ensures cgroups == CgroupsFor(units, Sorted(units.Keys), creatable)
    {
      hide Sorted;
      var names := Sorted(units.Keys);
      for i := 0 to |names|
        invariant cgroups == CgroupsFor(units, names[..i], creatable)
      {
        TakeOneMore(names, i);
        if units[names[i]].IsService() && names[i] in creatable {
          cgroups := cgroups + [names[i]];
        }
      }
      TakeAll(names);
    }

    /** The descriptors the socket units bound, in start order; `binds` is how many of a unit's addresses could be. */
    method BindSockets(units: UnitSet, binds: map<Name, nat>)
      requires sockets == []
      modifies this`sockets
      ensures sockets == BoundFor(units, order, binds)
    {
      for i := 0 to |order|
        invariant sockets == BoundFor(units, order[..i], binds)
      {
        TakeOneMore(order, i);
        var n := order[i];
        if n in units && units[n].IsSocket() && n in binds {
          ghost var before := sockets;
          AppendNothing(before);
          for j := 0 to binds[n]
            invariant sockets == before + Copies(Bound(n, units[n].kind.activates), j)
          {
            AppendInParts(before, Copies(Bound(n, units[n].kind.activates), j), [Bound(n, units[n].kind.activates)]);
            sockets := sockets + [Bound(n, units[n].kind.activates)];
          }
        }
      }
      TakeAll(order);
    }

    /** The next answer from outside. */
    method Draw(k: Kernel) returns (a: Answer)
      modifies this`asked, this`clock
      ensures a == k(old(asked)) && State() == Drew(old(State()), k)
    {
      a := k(asked);
      asked, clock := asked + 1, Latest(clock, a.now);
    }

    // ----- Stopping -----

    method StopUnit(n: Name, cause: StopCause, k: Kernel)
      modifies this, timers
      ensures State() == Stop(old(State()), n, cause, k)
    {
      hide Runtime.CancelRestart, Runtime.EnteredDeactivating, Runtime.Deactivated, Enqueue;
      var a := Draw(k);
      var now := a.now;
      pending := Without(pending, n);
      if n !in instances {
        return;
      }
      var i := instances[n];
      if i.state == Restarting {
        instances := instances[n := i.CancelRestart()];
        return;
      }
      if !i.unit.IsService() {
        var (ended, _) := i.EnteredDeactivating(cause).Deactivated(now);
        instances := instances[n := ended];
        return;
      }
      if i.state == Inactive || i.state == Failed || i.state == Deactivating {
        return;
      }
      BeginStop(n, i.EnteredDeactivating(cause), i.unit.kind.service.stopSec, now);
    }

    /** On its way down, with a bound on how long that may take. */
    method BeginStop(n: Name, i: Runtime, stopSec: nat, now: nat)
      modifies this`instances, timers
      ensures State() == Enqueue(Put(old(State()), n, i), stopSec, StopTimeout(n), now)
    {
      hide Push;
      instances := instances[n := i];
      Schedule(stopSec, StopTimeout(n), now);
    }

    /** Arm one alarm. */
    method Schedule(delay: nat, alarm: Alarm, now: nat)
      modifies timers`heap
      ensures State() == Enqueue(old(State()), delay, alarm, now)
    {
      timers.Schedule(delay, alarm, now);
    }

    /** Own conflicts first, then whoever else names this unit. */
    method FindConflicts(n: Name) returns (names: seq<Name>)
      ensures names == ConflictingWith(State(), n)
    {
      hide Declaring;
      var own := if n in instances then instances[n].unit.deps.conflicts else [];
      var others := FindDeclaring(Sorted(instances.Keys), n, own);
      names := own + others;
    }

    method FindDeclaring(candidates: seq<Name>, n: Name, own: seq<Name>) returns (names: seq<Name>)
      requires forall x | x in candidates :: x in instances
      ensures names == Declaring(State(), candidates, n, own)
    {
      names := [];
      for i := 0 to |candidates|
        invariant names + Declaring(State(), candidates[i..], n, own) == Declaring(State(), candidates, n, own)
      {
        ghost var rest := Declaring(State(), candidates[i + 1..], n, own);
        assert candidates[i..][1..] == candidates[i + 1..];
        if n in instances[candidates[i]].unit.deps.conflicts && candidates[i] !in own {
          AppendInParts(names, [candidates[i]], rest);
          names := names + [candidates[i]];
        }
      }
    }

    // ----- Starting -----

    method StartUnit(n: Name, k: Kernel)
      modifies this, timers
      ensures State() == Start(old(State()), n, k)
    {
      hide StopConflicts, Activate;
      if shutdown.Some? {
        return;
      }
      var conflicts := FindConflicts(n);
      StopBusy(conflicts, k);
      ActivateUnit(n, k);
    }

    method StopBusy(names: seq<Name>, k: Kernel)
      modifies this, timers
      ensures State() == StopConflicts(old(State()), names, k)
    {
      hide Stop;
      for i := 0 to |names|
        invariant StopConflicts(old(State()), names, k) == StopConflicts(State(), names[i..], k)
      {
        if names[i] in instances && !instances[names[i]].Idle() {
          StopUnit(names[i], Requested, k);
        }
      }
    }

    method ActivateUnit(n: Name, k: Kernel)
      modifies this, timers
      ensures State() == Activate(old(State()), n, k)
    {
      hide Runtime.EnteredActive, Launch, Arm;
      var a := Draw(k);
      if n !in instances {
        return;
      }
      var i := instances[n];
      match i.unit.kind {
        case TargetKind =>
          instances := instances[n := i.EnteredActive(a.now)];
        case TimerKind(schedule, _) =>
          instances := instances[n := i.EnteredActive(a.now)];
          ArmTimer(n, schedule.First(a.wall), a.now);
        case SocketKind(_) =>
          instances := instances[n := i.EnteredActive(a.now)];
        case ServiceKind(service) =>
          LaunchService(n, service, a);
      }
    }

    /** Limits, then output, then the fork: the first that fails is the unit's failure. */
    method LaunchService(n: Name, service: Service, a: Answer)
      requires n in instances
      modifies this, timers
      ensures State() == Launch(old(State()), n, service, a)
    {
      hide Enqueue;
      var i := instances[n];
      if service.limited && !(n in cgroups && a.limitsApplied) {
        instances := instances[n := i.FailedToStart()];
        return;
      }
      if !service.output.Console? && !a.outputOpened {
        instances := instances[n := i.FailedToStart()];
        return;
      }
      match a.spawned {
        case None =>
          instances := instances[n := i.FailedToStart()];
        case Some(pid) =>
          i := i.EnteredActivating(pid);
          if service.ty == Simple {
            i := i.EnteredActive(a.now);
          }
          instances := instances[n := i];
          if i.state != Active {
            Schedule(service.startSec, StartTimeout(n), a.now);
          }
      }
    }

    method ArmTimer(n: Name, next: Option<Next>, now: nat)
      modifies this`nextElapse, timers
      ensures State() == Arm(old(State()), n, next, now)
    {
      match next {
        case None =>
          nextElapse := nextElapse - {n};
        case Some(when) =>
          match when {
            case After(delay) => Schedule(delay, TimerElapsed(n), now);
            case AtMoment(at) => timers.ScheduleAt(at, TimerElapsed(n));
          }
          nextElapse := nextElapse[n := when];
      }
    }

    // ----- The start queue -----

    method FindStartable() returns (r: Option<Name>)
      ensures r == NextStartable(State(), pending)
    {
      for i := 0 to |pending|
        invariant NextStartable(State(), pending) == NextStartable(State(), pending[i..])
      {
        var ready := IsReady(pending[i]);
        if ready {
          return Some(pending[i]);
        }
      }
      return None;
    }

    method IsReady(n: Name) returns (ready: bool)
      ensures ready == OrderingSatisfied(State(), n)
    {
      if n !in instances {
        return false;
      }
      var after := instances[n].unit.deps.after;
      for i := 0 to |after|
        invariant forall dep | dep in after[..i] ::
                    dep !in pending && (dep in instances ==> !instances[dep].state.Activating?)
      {
        TakeOneMore(after, i);
        if after[i] in pending || (after[i] in instances && instances[after[i]].state == Activating) {
          return false;
        }
      }
      TakeAll(after);
      return true;
    }

    method HasFailedRequirement(n: Name) returns (failed: bool)
      ensures failed == RequirementFailed(State(), n)
    {
      if n !in instances {
        return false;
      }
      var needs := instances[n].unit.deps.needs;
      for i := 0 to |needs|
        invariant forall dep | dep in needs[..i] :: dep in instances ==> !instances[dep].state.Failed?
      {
        TakeOneMore(needs, i);
        if needs[i] in instances && instances[needs[i]].state == Failed {
          return true;
        }
      }
      TakeAll(needs);
      return false;
    }

    /** Start every queued unit whose ordering is satisfied, until none is. */
    method PumpQueue(k: Kernel)
      modifies this, timers
      ensures State() == Pump(old(State()), k)
    {
      hide Start;
      if shutdown.Some? {
        pending := [];
        return;
      }
      var name := FindStartable();
      while name.Some?
        invariant shutdown.None? && name == NextStartable(State(), pending)
        invariant Pump(old(State()), k) == Pump(State(), k)
        decreases |pending|
      {
        var n := name.value;
        ghost var before := State();
        pending := Without(pending, n);
        var failed := HasFailedRequirement(n);
        if failed {
          instances := instances[n := instances[n].FailedToStart()];
        } else {
          StartUnit(n, k);
        }
        assert State() == Dequeue(before, n, k);
        name := FindStartable();
      }
    }

    method StartAllUnits(k: Kernel)
      modifies this, timers
      ensures State() == StartAll(old(State()), k)
    {
      pending := order;
      PumpQueue(k);
    }

    // ----- The ends of things -----

    method SettleUnit(n: Name, after: Runtime, delay: Option<nat>, now: nat)
      modifies this`instances, timers
      ensures State() == Settle(old(State()), n, after, delay, now)
    {
      instances := instances[n := after];
      if delay.Some? {
        if shutdown.Some? {
          instances := instances[n := after.CancelRestart()];
        } else {
          Schedule(delay.value, RestartDue(n), now);
        }
      }
    }

    method FinishStop(n: Name, k: Kernel)
      modifies this, timers
      ensures State() == FinishDeactivation(old(State()), n, k)
    {
      hide Runtime.Deactivated, Settle, Start;
      var a := Draw(k);
      var now := a.now;
      if n !in instances || instances[n].state != Deactivating {
        return;
      }
      var (after, delay) := instances[n].Deactivated(now);
      SettleUnit(n, after, delay, now);
      if n in pendingRestart {
        pendingRestart := pendingRestart - {n};
        StartUnit(n, k);
      }
    }

    method FindUnit(pid: nat) returns (r: Option<Name>)
      ensures r == UnitForPid(State(), pid)
    {
      r := FindPidAmong(Sorted(instances.Keys), pid);
    }

    method FindPidAmong(names: seq<Name>, pid: nat) returns (r: Option<Name>)
      requires forall n | n in names :: n in instances
      ensures r == FindPid(instances, names, pid)
    {
      for i := 0 to |names|
        invariant FindPid(instances, names, pid) == FindPid(instances, names[i..], pid)
      {
        assert names[i..][1..] == names[i + 1..];
        if instances[names[i]].child == Some(pid) {
          return Some(names[i]);
        }
      }
      return None;
    }

    method ReapOne(pid: nat, exit: Exit, k: Kernel)
      modifies this, timers
      ensures State() == Reap(old(State()), pid, exit, k)
    {
      hide Runtime.OnExit, Settle, FinishDeactivation, ForkingParentExited, UnitForPid;
      var a := Draw(k);
      var found := FindUnit(pid);
      if found.None? {
        return;
      }
      var n := found.value;
      var i := instances[n];
      if i.unit.IsService() && i.unit.kind.service.ty == Forking && i.state == Activating {
        ForkingParentGone(n, exit, a);
        return;
      }
      var (after, delay) := i.OnExit(exit, a.now);
      SettleUnit(n, after, delay, a.now);
      if delay.None? && i.state == Deactivating {
        var waiting := n in cgroups && a.populated;
        if !waiting {
          FinishStop(n, k);
        }
      }
    }

    method ForkingParentGone(n: Name, exit: Exit, a: Answer)
      requires n in instances
      modifies this`instances
      ensures State() == ForkingParentExited(old(State()), n, exit, a)
    {
      if n !in cgroups {
        instances := instances[n := instances[n].FailedToStart()];
        return;
      }
      if exit == Clean && a.populated {
        instances := instances[n := instances[n].ForkedAway(a.now)];
      } else {
        instances := instances[n := instances[n].FailedToStart()];
      }
    }

    method OnSigchld(reaped: seq<Reaped>, k: Kernel)
      modifies this, timers
      ensures State() == ReapAll(old(State()), reaped, k)
    {
      hide Reap;
      for i := 0 to |reaped|
        invariant ReapAll(old(State()), reaped, k) == ReapAll(State(), reaped[i..], k)
      {
        ReapOne(reaped[i].pid, reaped[i].exit, k);
      }
    }

    method OnCgroupChange(id: nat, populated: Option<bool>, k: Kernel)
      modifies this, timers
      ensures State() == OnCgroup(old(State()), id, populated, k)
    {
      hide Runtime.OnExit, FinishDeactivation, Enqueue;
      var a := Draw(k);
      var now := a.now;
      if id >= |cgroups| || populated != Some(false) {
        return;
      }
      var n := cgroups[id];
      if n !in instances {
        return;
      }
      var i := instances[n];
      if i.state == Deactivating {
        FinishStop(n, k);
      } else if i.state == Active && i.child.None? {
        var (after, delay) := i.OnExit(Abnormal, now);
        instances := instances[n := after];
        if delay.Some? {
          Schedule(delay.value, RestartDue(n), now);
        }
      }
    }

    // ----- Notifications -----

    method ReceiveOne(m: Message, k: Kernel)
      modifies this, timers
      ensures State() == Receive(old(State()), m, k)
    {
      hide Heard, Become, UnitForPid;
      var a := Draw(k);
      var now := a.now;
      var found := FindUnit(m.pid);
      if found.None? {
        return;
      }
      HearFrom(found.value, m, now);
    }

    method HearFrom(n: Name, m: Message, now: nat)
      requires n in instances
      modifies this`instances, timers
      ensures State() == Become(old(State()), n, Heard(old(instances[n]), m, now), m.ready, now)
    {
      hide Enqueue;
      var i := instances[n];
      if m.status.Some? {
        i := i.(status := m.status);
      }
      if m.watchdog {
        i := i.Pinged(now);
      }
      if m.ready && i.state == Activating {
        instances := instances[n := i.EnteredActive(now)];
        if i.Watchdog().Some? {
          Schedule(i.Watchdog().value, Alarm.WatchdogCheck(n), now);
        }
      } else {
        instances := instances[n := i];
      }
    }

    method OnNotify(messages: seq<Message>, k: Kernel)
      modifies this, timers
      ensures State() == ReceiveAll(old(State()), messages, k)
    {
      hide Receive;
      for i := 0 to |messages|
        invariant ReceiveAll(old(State()), messages, k) == ReceiveAll(State(), messages[i..], k)
      {
        ReceiveOne(messages[i], k);
      }
    }

    // ----- Alarms -----

    method TimerUnitElapsed(n: Name, k: Kernel)
      modifies this, timers
      ensures State() == OnTimerElapsed(old(State()), n, k)
    {
      hide Start, Arm;
      var a := Draw(k);
      if n !in instances || !instances[n].unit.IsTimer() || shutdown.Some? {
        return;
      }
      var timer := instances[n].unit.kind;
      ArmTimer(n, timer.schedule.Following(a.wall), a.now);
      if timer.starts !in instances {
        return;
      }
      if !instances[timer.starts].Idle() {
        return;
      }
      StartUnit(timer.starts, k);
    }

    method CheckWatchdog(n: Name, k: Kernel)
      modifies this, timers
      ensures State() == OnWatchdogCheck(old(State()), n, k)
    {
      hide Stop, Enqueue;
      var a := Draw(k);
      var now := a.now;
      if n !in instances {
        return;
      }
      var i := instances[n];
      if i.Watchdog().None? || i.state != Active {
        return;
      }
      var interval := i.Watchdog().value;
      if !i.WatchdogExpired(interval, now) {
        Schedule(interval, Alarm.WatchdogCheck(n), now);
        return;
      }
      StopUnit(n, Watchdog, k);
    }

    method FireAlarm(alarm: Alarm, k: Kernel)
      modifies this, timers
      ensures State() == Fire(old(State()), alarm, k)
    {
      hide Start, Stop;
      match alarm {
        case RestartDue(n) =>
          if n in instances && instances[n].state == Restarting {
            StartUnit(n, k);
          }
        case WatchdogCheck(n) =>
          CheckWatchdog(n, k);
        case StopTimeout(n) =>
          if n in instances && instances[n].state == Deactivating {
            instances := instances[n := instances[n].StopTimedOut()];
          }
        case TimerElapsed(n) =>
          TimerUnitElapsed(n, k);
        case StartTimeout(n) =>
          if n in instances && instances[n].state == Activating {
            StopUnit(n, Watchdog, k);
          }
      }
    }

    /** Pop everything due, then handle it. */
    method OnTimer(k: Kernel) returns (fired: seq<Entry>, ghost left: multiset<Entry>)
      modifies this, timers
      ensures IsExpiry(old(timers.heap), k(old(asked)).now, fired, left)
      ensures State() == FireAll(Drew(old(State()), k).(heap := left), AlarmsOf(fired), k)
    {
      hide IsExpiry, FireAll;
      var a := Draw(k);
      var now := a.now;
      fired := timers.Expired(now);
      left := timers.heap;
      FireEach(AlarmsOf(fired), k);
    }

    method FireEach(alarms: seq<Alarm>, k: Kernel)
      modifies this, timers
      ensures State() == FireAll(old(State()), alarms, k)
    {
      hide Fire;
      for i := 0 to |alarms|
        invariant FireAll(old(State()), alarms, k) == FireAll(State(), alarms[i..], k)
      {
        FireAlarm(alarms[i], k);
      }
    }

    /** The wall clock's deadlines; a step of that clock pops nothing. */
    method OnWallTimer(stepped: bool, k: Kernel) returns (fired: seq<Entry>, ghost left: multiset<Entry>)
      modifies this, timers
      ensures stepped ==> fired == [] && left == old(timers.wallHeap)
      ensures !stepped ==> IsExpiry(old(timers.wallHeap), k(old(asked)).wall, fired, left)
      ensures State() == FireWall(Drew(old(State()), k).(wallHeap := left), AlarmsOf(fired), k)
    {
      hide IsExpiry, FireWall;
      var a := Draw(k);
      var now := a.wall;
      fired := timers.WallExpired(now, stepped);
      left := timers.wallHeap;
      FireTimers(AlarmsOf(fired), k);
    }

    method FireTimers(alarms: seq<Alarm>, k: Kernel)
      modifies this, timers
      ensures State() == FireWall(old(State()), alarms, k)
    {
      hide OnTimerElapsed;
      for i := 0 to |alarms|
        invariant FireWall(old(State()), alarms, k) == FireWall(State(), alarms[i..], k)
      {
        if alarms[i].TimerElapsed? {
          TimerUnitElapsed(alarms[i].who, k);
        }
      }
    }

    // ----- Connections and control -----

    method OnConnection(id: nat, k: Kernel)
      modifies this, timers
      ensures State() == OnSocket(old(State()), id, k)
    {
      hide Start;
      if id >= |sockets| {
        return;
      }
      var service := sockets[id].service;
      var idle := service in instances && instances[service].Idle();
      if !idle {
        return;
      }
      StartUnit(service, k);
    }

    method HandleRequest(request: Request, k: Kernel) returns (response: Response)
      modifies this, timers
      ensures (State(), response) == Handle(old(State()), request, k)
    {
      hide Start, Stop, Reload, RestartWhenStopped;
      match request {
        case ListRequest =>
          return Listing;
        case StatusRequest(n) =>
          return if n in instances then Listing else UnknownUnit;
        case StartRequest(n) =>
          if n !in instances {
            return UnknownUnit;
          }
          if shutdown.Some? {
            return Refused;
          }
          StartUnit(n, k);
          return Accepted;
        case StopRequest(n) =>
          if n !in instances {
            return UnknownUnit;
          }
          StopUnit(n, Requested, k);
          return Accepted;
        case RestartRequest(n) =>
          if n !in instances {
            return UnknownUnit;
          }
          if shutdown.Some? {
            return Refused;
          }
          StopUnit(n, Requested, k);
          StartWhenStopped(n, k);
          return Accepted;
        case ReloadRequest(d) =>
          response := ReloadUnits(d);
      }
    }

    method StartWhenStopped(n: Name, k: Kernel)
      modifies this, timers
      ensures State() == RestartWhenStopped(old(State()), n, k)
    {
      hide Start;
      if n !in instances {
        return;
      }
      if instances[n].Idle() {
        StartUnit(n, k);
        return;
      }
      pendingRestart := pendingRestart + {n};
    }

    /** Apply what the directories say to every unit that is not running, then forget the ones that are gone. */
    method ReloadUnits(d: Directory) returns (response: Response)
      modifies this`instances, this`cgroups
      ensures (State(), response) == Reload(old(State()), d)
    {
      hide NewCgroups, Sorted, Reloaded, Replaced;
      if d.broken {
        return LoadErrors;
      }
      Replace(d, Sorted(d.units.Keys));
      KeptAreReloaded(old(instances), instances, d.units);
      instances := Kept(instances, d.units);
      return Accepted;
    }

    /** A fresh instance, and a cgroup, for every definition that is new or changed and not in use. */
    method Replace(d: Directory, names: seq<Name>)
      requires Distinct(names) && forall n :: n in names <==> n in d.units
      modifies this`instances, this`cgroups
      ensures instances.Keys == old(instances).Keys + d.units.Keys
      ensures forall n | n in instances ::
                instances[n] ==
                if Replaced(old(instances), d.units, n) then NewRuntime(d.units[n]) else old(instances)[n]
      ensures cgroups == old(cgroups) + NewCgroups(old(instances), d, names)
    {
      hide Runtime.Idle, NewRuntime, NewCgroups;
      for i := 0 to |names|
        invariant forall n :: n in instances <==> n in old(instances) || n in names[..i]
        invariant forall n | n in instances ::
                    instances[n] ==
                    if n in names[..i] && Replaced(old(instances), d.units, n) then NewRuntime(d.units[n])
                        else old(instances)[n]
        invariant cgroups + NewCgroups(old(instances), d, names[i..]) ==
                  old(cgroups) + NewCgroups(old(instances), d, names)
      {
        TakeOneMore(names, i);
        ReplaceOne(d, names[i], old(instances), names[i..]);
        assert names[i..][1..] == names[i + 1..];
      }
      TakeAll(names);
      assert names[|names|..] == [] && NewCgroups(old(instances), d, []) == [] by {
        NoneToMake(old(instances), d);
      }
      AppendNothing(cgroups);
    }

    method ReplaceOne(d: Directory, n: Name, ghost before: map<Name, Runtime>, ghost rest: seq<Name>)
      requires rest != [] && rest[0] == n && forall x | x in rest :: x in d.units
      requires (n in before <==> n in instances) && (n in before ==> before[n] == instances[n])
      modifies this`instances, this`cgroups
      ensures instances ==
              if Replaced(before, d.units, n) then old(instances)[n := NewRuntime(d.units[n])] else old(instances)
      ensures cgroups + NewCgroups(before, d, rest[1..]) == old(cgroups) + NewCgroups(before, d, rest)
    {
      hide Runtime.Idle, NewRuntime;
      if n in instances && (instances[n].unit == d.units[n] || !instances[n].Idle()) {
        AppendNothing(NewCgroups(before, d, rest[1..]));
        return;
      }
      if d.units[n].IsService() && n in d.creatable {
        AppendInParts(cgroups, [n], NewCgroups(before, d, rest[1..]));
        cgroups := cgroups + [n];
      } else {
        AppendNothing(NewCgroups(before, d, rest[1..]));
      }
      instances := instances[n := NewRuntime(d.units[n])];
    }

    // ----- Shutdown -----

    method StopSequence() returns (names: seq<Name>)
      ensures names == StopOrder(State())
    {
      hide Missing;
      var others := FindMissing(Sorted(instances.Keys));
      names := Reverse(order) + others;
    }

    method FindMissing(candidates: seq<Name>) returns (names: seq<Name>)
      ensures names == Missing(order, candidates)
    {
      names := [];
      for i := 0 to |candidates|
        invariant names + Missing(order, candidates[i..]) == Missing(order, candidates)
      {
        assert candidates[i..][1..] == candidates[i + 1..];
        if candidates[i] !in order {
          AppendInParts(names, [candidates[i]], Missing(order, candidates[i + 1..]));
          names := names + [candidates[i]];
        } else {
          AppendNothing(Missing(order, candidates[i + 1..]));
        }
      }
    }

    method BeginGoingDown(action: Action, k: Kernel)
      modifies this, timers
      ensures State() == BeginShutdown(old(State()), action, k)
    {
      hide StopEach, StopOrder;
      if shutdown.Some? {
        return;
      }
      var a := Draw(k);
      shutdown := Some(Shutdown(action, a.now));
      var names := StopSequence();
      StopAll(names, k);
    }

    method StopAll(names: seq<Name>, k: Kernel)
      modifies this, timers
      ensures State() == StopEach(old(State()), names, k)
    {
      hide Stop;
      for i := 0 to |names|
        invariant StopEach(old(State()), names, k) == StopEach(State(), names[i..], k)
      {
        StopUnit(names[i], Requested, k);
      }
    }

    method IsSettled(now: nat) returns (action: Option<Action>)
      ensures action == Settled(State(), now)
    {
      if shutdown.None? {
        return None;
      }
      var names := Sorted(instances.Keys);
      var busy := false;
      for i := 0 to |names|
        invariant !busy ==> forall n | n in names[..i] :: instances[n].Idle()
        invariant busy ==> exists n :: n in instances && !instances[n].Idle()
      {
        TakeOneMore(names, i);
        if !instances[names[i]].Idle() {
          busy := true;
        }
      }
      TakeAll(names);
      if !busy || shutdown.value.Overdue(now) {
        return Some(shutdown.value.action);
      }
      return None;
    }
  }
}
