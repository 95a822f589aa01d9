/**
 * The supervisor as a transition system on values: what each event does to the
 * whole state. `Supervisor.dfy` holds the object that does it in place.
 */
module Supervision {
  import opened Names
  import opened Wrappers
  import opened Units
  import opened Services
  import opened Alarms
  import opened Calendars

  /**
   * One answer from outside: the two clocks, whether the limits could be applied
   * and the output opened, the pid if the fork and exec worked, and whether the
   * cgroup asked about holds a process. Each operation draws the next one.
   */
  datatype Answer = Answer(
    now: nat,
    wall: nat,
    limitsApplied: bool,
    outputOpened: bool,
    spawned: Option<nat>,
    populated: bool
  )

  type Kernel = nat -> Answer

  datatype Action = PowerOff | Reboot | Halt

  /** 90 s and 10 ms, in nanoseconds. */
  const DEADLINE: nat := 90_000_000_000
  const MARGIN: nat := 10_000_000

  datatype Shutdown = Shutdown(action: Action, started: nat)
  {
    predicate Overdue(now: nat)
    {
      OlderThan(started, DEADLINE, now)
    }

    function Remaining(now: nat): nat
    {
      var elapsed := if now <= started then 0 else now - started;
      (if elapsed >= DEADLINE then 0 else DEADLINE - elapsed) + MARGIN
    }
  }

  /** A bound descriptor: the socket unit it came from and the service it activates. */
  datatype Bound = Bound(socket: Name, service: Name)

  datatype Sup = Sup(
    instances: map<Name, Runtime>,
    order: seq<Name>,
    pending: seq<Name>,
    pendingRestart: set<Name>,
    nextElapse: map<Name, Next>,
    heap: multiset<Entry>,
    wallHeap: multiset<Entry>,
    cgroups: seq<Name>,
    sockets: seq<Bound>,
    shutdown: Option<Shutdown>,
    asked: nat,
    clock: nat
  )

  function Put(s: Sup, n: Name, r: Runtime): Sup
  {
    s.(instances := s.instances[n := r])
  }

  function Enqueue(s: Sup, delay: nat, alarm: Alarm, now: nat): Sup
  {
    s.(heap := Push(s.heap, Entry(now + delay, alarm)))
  }

  /** One more answer is drawn, and the latest moment the clock has reported is remembered. */
  function Drew(s: Sup, k: Kernel): (t: Sup)
    ensures k(s.asked).now <= t.clock && s.clock <= t.clock
  {
    s.(asked := s.asked + 1, clock := Latest(s.clock, k(s.asked).now))
  }

  function Latest(a: nat, b: nat): nat
  {
    if a <= b then b else a
  }

  predicate Busy(s: Sup, n: Name)
  {
    n in s.instances && !s.instances[n].Idle()
  }

  // ----- Stopping -----

  function Stop(s: Sup, n: Name, cause: StopCause, k: Kernel): (t: Sup)
    ensures |t.pending| <= |s.pending| && t.shutdown == s.shutdown
  {
    var now := k(s.asked).now;
    var s := Drew(s, k).(pending := Without(s.pending, n));
    if n !in s.instances then s
    else
      var i := s.instances[n];
      if i.state.Restarting? then Put(s, n, i.CancelRestart())
      else if !i.unit.IsService() then Put(s, n, i.EnteredDeactivating(cause).Deactivated(now).0)
      else if i.Idle() || i.state.Deactivating? then s
      else Enqueue(Put(s, n, i.EnteredDeactivating(cause)), i.unit.kind.service.stopSec, StopTimeout(n), now)
  }

  /** The names in `names` that declare a conflict with `n` and are not in `already`. */
  function Declaring(s: Sup, names: seq<Name>, n: Name, already: seq<Name>): (r: seq<Name>)
    requires forall x | x in names :: x in s.instances
    ensures forall x :: x in r <==> x in names && n in s.instances[x].unit.deps.conflicts && x !in already
  {
    if names == [] then []
    else
      var rest := Declaring(s, names[1..], n, already);
      if n in s.instances[names[0]].unit.deps.conflicts && names[0] !in already then [names[0]] + rest else rest
  }

  /** Units that cannot run with this one, whichever side says so. */
  function ConflictingWith(s: Sup, n: Name): (r: seq<Name>)
    ensures forall x | x in s.instances :: x in r <==> Conflict(s, n, x)
  {
    var own := if n in s.instances then s.instances[n].unit.deps.conflicts else [];
    own + Declaring(s, Sorted(s.instances.Keys), n, own)
  }

  predicate Conflict(s: Sup, a: Name, b: Name)
  {
    || (a in s.instances && b in s.instances[a].unit.deps.conflicts)
    || (b in s.instances && a in s.instances[b].unit.deps.conflicts)
  }

  function StopConflicts(s: Sup, names: seq<Name>, k: Kernel): (t: Sup)
    ensures |t.pending| <= |s.pending| && t.shutdown == s.shutdown
    decreases |names|
  {
    if names == [] then s
    else StopConflicts(if Busy(s, names[0]) then Stop(s, names[0], Requested, k) else s, names[1..], k)
  }

  // ----- Starting -----

  /** Arm a timer unit's next firing on the clock it chose. */
  function Arm(s: Sup, n: Name, next: Option<Next>, now: nat): (t: Sup)
    ensures t.pending == s.pending && t.instances == s.instances
  {
    match next
    case None => s.(nextElapse := s.nextElapse - {n})
    case Some(After(delay)) => Enqueue(s.(nextElapse := s.nextElapse[n := next.value]), delay, TimerElapsed(n), now)
    case Some(AtMoment(at)) =>
      s.(nextElapse := s.nextElapse[n := next.value], wallHeap := Push(s.wallHeap, Entry(at, TimerElapsed(n))))
  }

  /** Whether a service's limits and output could be set up; the first thing that cannot be is a failure to start. */
  predicate Prepared(s: Sup, n: Name, service: Service, a: Answer)
  {
    && (service.limited ==> n in s.cgroups && a.limitsApplied)
    && (service.output.Console? || a.outputOpened)
  }

  /** Fork one service's main process. */
  function Launch(s: Sup, n: Name, service: Service, a: Answer): (t: Sup)
    requires n in s.instances
    ensures t.pending == s.pending && t.shutdown == s.shutdown
  {
    var i := s.instances[n];
    if !Prepared(s, n, service, a) || a.spawned.None? then Put(s, n, i.FailedToStart())
    else
      var up := i.EnteredActivating(a.spawned.value);
      if service.ty.Simple? then Put(s, n, up.EnteredActive(a.now))
      else Enqueue(Put(s, n, up), service.startSec, StartTimeout(n), a.now)
  }

  /** What starting does to the unit itself, once what it excludes is on its way down. */
  function Activate(s: Sup, n: Name, k: Kernel): (t: Sup)
    ensures t.pending == s.pending && t.shutdown == s.shutdown
  {
    var a := k(s.asked);
    var s := Drew(s, k);
    if n !in s.instances then s
    else
      var i := s.instances[n];
      match i.unit.kind
      case TargetKind => Put(s, n, i.EnteredActive(a.now))
      case SocketKind(_) => Put(s, n, i.EnteredActive(a.now))
      case TimerKind(schedule, _) =>
        var s := Put(s, n, i.EnteredActive(a.now));
        Arm(s, n, schedule.First(a.wall), a.now)
      case ServiceKind(service) => Launch(s, n, service, a)
  }

  function Start(s: Sup, n: Name, k: Kernel): (t: Sup)
    ensures |t.pending| <= |s.pending| && t.shutdown == s.shutdown
  {
    if s.shutdown.Some? then s
    else Activate(StopConflicts(s, ConflictingWith(s, n), k), n, k)
  }

  // ----- The start queue -----

  /** Whether every unit this one is `after` has finished activating. `before` plays no part at run time. */
  predicate OrderingSatisfied(s: Sup, n: Name)
  {
    n in s.instances &&
    forall dep | dep in s.instances[n].unit.deps.after ::
      dep !in s.pending && (dep in s.instances ==> !s.instances[dep].state.Activating?)
  }

  /** The first of `names` with nothing left to wait for. */
  function NextStartable(s: Sup, names: seq<Name>): (r: Option<Name>)
    ensures r.Some? ==> r.value in names && OrderingSatisfied(s, r.value)
    ensures r.None? ==> forall n | n in names :: !OrderingSatisfied(s, n)
  {
    if names == [] then None
    else if OrderingSatisfied(s, names[0]) then Some(names[0])
    else NextStartable(s, names[1..])
  }

  predicate RequirementFailed(s: Sup, n: Name)
  {
    n in s.instances &&
    exists dep | dep in s.instances[n].unit.deps.needs :: dep in s.instances && s.instances[dep].state.Failed?
  }

  /** Take one unit off the queue and start it, or fail it if something it requires already failed. */
  function Dequeue(s: Sup, n: Name, k: Kernel): (t: Sup)
    requires n in s.pending
    ensures |t.pending| < |s.pending| && t.shutdown == s.shutdown
  {
    var s := s.(pending := Without(s.pending, n));
    if RequirementFailed(s, n) then Put(s, n, s.instances[n].FailedToStart()) else Start(s, n, k)
  }

  function Pump(s: Sup, k: Kernel): Sup
    decreases |s.pending|
  {
    if s.shutdown.Some? then s.(pending := [])
    else
      match NextStartable(s, s.pending)
      case None => s
      case Some(n) => Pump(Dequeue(s, n, k), k)
  }

  function StartAll(s: Sup, k: Kernel): Sup
  {
    Pump(s.(pending := s.order), k)
  }

  // ----- The ends of things -----

  /** A restart the policy asked for: cancelled on the way down, scheduled otherwise. */
  function Settle(s: Sup, n: Name, after: Runtime, delay: Option<nat>, now: nat): (t: Sup)
    ensures t.pending == s.pending && t.pendingRestart == s.pendingRestart && t.shutdown == s.shutdown
  {
    match delay
    case None => Put(s, n, after)
    case Some(d) =>
      if s.shutdown.Some? then Put(s, n, after.CancelRestart())
      else Enqueue(Put(s, n, after), d, RestartDue(n), now)
  }

  function FinishDeactivation(s: Sup, n: Name, k: Kernel): Sup
  {
    var now := k(s.asked).now;
    var s := Drew(s, k);
    if n !in s.instances || !s.instances[n].state.Deactivating? then s
    else
      var (after, delay) := s.instances[n].Deactivated(now);
      var s := Settle(s, n, after, delay, now);
      if n in s.pendingRestart then Start(s.(pendingRestart := s.pendingRestart - {n}), n, k) else s
  }

  function FindPid(instances: map<Name, Runtime>, names: seq<Name>, pid: nat): (r: Option<Name>)
    requires forall n | n in names :: n in instances
    ensures r.Some? ==> r.value in names && instances[r.value].child == Some(pid)
    ensures r.None? ==> forall n | n in names :: instances[n].child != Some(pid)
  {
    if names == [] then None
    else if instances[names[0]].child == Some(pid) then Some(names[0])
    else FindPid(instances, names[1..], pid)
  }

  function UnitForPid(s: Sup, pid: nat): (r: Option<Name>)
    ensures r.Some? ==> r.value in s.instances && s.instances[r.value].child == Some(pid)
    ensures r.None? ==> forall n | n in s.instances :: s.instances[n].child != Some(pid)
  {
    FindPid(s.instances, Sorted(s.instances.Keys), pid)
  }

  /**
   * A forking unit's initial process exited while activating: ready exactly when it was clean and left something
   * behind.
   */
  function ForkingParentExited(s: Sup, n: Name, exit: Exit, a: Answer): (t: Sup)
    requires n in s.instances
    ensures t.pending == s.pending
  {
    var i := s.instances[n];
    if n in s.cgroups && exit.Clean? && a.populated then Put(s, n, i.ForkedAway(a.now))
    else Put(s, n, i.FailedToStart())
  }

  function Reap(s: Sup, pid: nat, exit: Exit, k: Kernel): Sup
  {
    var a := k(s.asked);
    var s := Drew(s, k);
    match UnitForPid(s, pid)
    case None => s
    case Some(n) =>
      var i := s.instances[n];
      if i.unit.IsService() && i.unit.kind.service.ty.Forking? && i.state.Activating? then
        ForkingParentExited(s, n, exit, a)
      else
        var (after, delay) := i.OnExit(exit, a.now);
        var s := Settle(s, n, after, delay, a.now);
        if delay.None? && i.state.Deactivating? && !(n in s.cgroups && a.populated)
        then FinishDeactivation(s, n, k)
        else s
  }

  datatype Reaped = Reaped(pid: nat, exit: Exit)

  function ReapAll(s: Sup, reaped: seq<Reaped>, k: Kernel): Sup
    decreases |reaped|
  {
    if reaped == [] then s
    else ReapAll(Reap(s, reaped[0].pid, reaped[0].exit, k), reaped[1..], k)
  }

  function UnitVanished(s: Sup, n: Name, now: nat): (t: Sup)
    requires n in s.instances
    ensures t.pending == s.pending
  {
    var (after, delay) := s.instances[n].OnExit(Abnormal, now);
    var s := Put(s, n, after);
    if delay.Some? then Enqueue(s, delay.value, RestartDue(n), now) else s
  }

  function OnCgroup(s: Sup, id: nat, populated: Option<bool>, k: Kernel): Sup
  {
    var now := k(s.asked).now;
    var s := Drew(s, k);
    if id >= |s.cgroups| || populated != Some(false) then s
    else
      var n := s.cgroups[id];
      if n !in s.instances then s
      else
        var i := s.instances[n];
        if i.state.Deactivating? then FinishDeactivation(s, n, k)
        else if i.state.Active? && i.child.None? then UnitVanished(s, n, now)
        else s
  }

  // ----- Notifications -----

  datatype Message = Message(pid: nat, ready: bool, watchdog: bool, status: Option<string>)

  /** What a message says about the unit itself: its status text, and that it is alive. */
  function Heard(i: Runtime, m: Message, now: nat): (r: Runtime)
    ensures r.unit == i.unit && r.state == i.state && r.child == i.child
    ensures r.killed == i.killed && r.backoff == i.backoff
  {
    var i := if m.status.Some? then i.(status := m.status) else i;
    if m.watchdog then i.Pinged(now) else i
  }

  /** A unit that was heard from: up, if it was waiting to be and said so. */
  function Become(s: Sup, n: Name, i: Runtime, ready: bool, now: nat): (t: Sup)
    ensures t.pending == s.pending
  {
    if ready && i.state.Activating? then
      var s := Put(s, n, i.EnteredActive(now));
      match i.Watchdog()
      case Some(interval) => Enqueue(s, interval, Alarm.WatchdogCheck(n), now)
      case None => s
    else Put(s, n, i)
  }

  function Receive(s: Sup, m: Message, k: Kernel): (t: Sup)
    ensures t.pending == s.pending
  {
    var now := k(s.asked).now;
    var s := Drew(s, k);
    match UnitForPid(s, m.pid)
    case None => s
    case Some(n) => Become(s, n, Heard(s.instances[n], m, now), m.ready, now)
  }

  function ReceiveAll(s: Sup, messages: seq<Message>, k: Kernel): Sup
    decreases |messages|
  {
    if messages == [] then s else ReceiveAll(Receive(s, messages[0], k), messages[1..], k)
  }

  // ----- Alarms -----

  function OnTimerElapsed(s: Sup, n: Name, k: Kernel): Sup
  {
    var a := k(s.asked);
    var s := Drew(s, k);
    if n !in s.instances || !s.instances[n].unit.IsTimer() || s.shutdown.Some? then s
    else
      var timer := s.instances[n].unit.kind;
      var s := Arm(s, n, timer.schedule.Following(a.wall), a.now);
      if timer.starts !in s.instances || Busy(s, timer.starts) then s else Start(s, timer.starts, k)
  }

  function OnStartTimeout(s: Sup, n: Name, k: Kernel): Sup
  {
    if n in s.instances && s.instances[n].state.Activating? then Stop(s, n, Watchdog, k) else s
  }

  function OnStopTimeout(s: Sup, n: Name): Sup
  {
    if n in s.instances && s.instances[n].state.Deactivating? then Put(s, n, s.instances[n].StopTimedOut()) else s
  }

  function OnWatchdogCheck(s: Sup, n: Name, k: Kernel): Sup
  {
    var now := k(s.asked).now;
    var s := Drew(s, k);
    if n !in s.instances || s.instances[n].Watchdog().None? || !s.instances[n].state.Active? then s
    else
      var interval := s.instances[n].Watchdog().value;
      if s.instances[n].WatchdogExpired(interval, now) then Stop(s, n, Watchdog, k)
      else Enqueue(s, interval, Alarm.WatchdogCheck(n), now)
  }

  function Fire(s: Sup, alarm: Alarm, k: Kernel): Sup
  {
    match alarm
    case RestartDue(n) => if n in s.instances && s.instances[n].state.Restarting? then Start(s, n, k) else s
    case WatchdogCheck(n) => OnWatchdogCheck(s, n, k)
    case StopTimeout(n) => OnStopTimeout(s, n)
    case TimerElapsed(n) => OnTimerElapsed(s, n, k)
    case StartTimeout(n) => OnStartTimeout(s, n, k)
  }

  function FireAll(s: Sup, alarms: seq<Alarm>, k: Kernel): Sup
    decreases |alarms|
  {
    if alarms == [] then s else FireAll(Fire(s, alarms[0], k), alarms[1..], k)
  }

  /** The wall clock fires timers only. */
  function FireWall(s: Sup, alarms: seq<Alarm>, k: Kernel): Sup
    decreases |alarms|
  {
    if alarms == [] then s
    else FireWall(if alarms[0].TimerElapsed? then OnTimerElapsed(s, alarms[0].who, k) else s, alarms[1..], k)
  }

  // ----- Connections and control -----

  function OnSocket(s: Sup, id: nat, k: Kernel): Sup
  {
    if id >= |s.sockets| then s
    else
      var service := s.sockets[id].service;
      if service in s.instances && s.instances[service].Idle() then Start(s, service, k) else s
  }

  /** What the unit directories hold when `reload` reads them. `creatable` are the cgroups the kernel would make. */
  datatype Directory = Directory(units: map<Name, Unit>, broken: bool, creatable: set<Name>)

  datatype Request =
    | ListRequest
    | StatusRequest(name: Name)
    | StartRequest(name: Name)
    | StopRequest(name: Name)
    | RestartRequest(name: Name)
    | ReloadRequest(directory: Directory)

  datatype Response = Listing | Accepted | UnknownUnit | Refused | LoadErrors

  /** Whether `reload` gives `n` a fresh instance: its definition is new or changed, and nothing is running it. */
  predicate Replaced(instances: map<Name, Runtime>, units: map<Name, Unit>, n: Name)
  {
    n in units && (n in instances ==> instances[n].unit != units[n] && instances[n].Idle())
  }

  function Reloaded(instances: map<Name, Runtime>, units: map<Name, Unit>): map<Name, Runtime>
  {
    map n | n in instances.Keys + units.Keys && (n in units || !instances[n].Idle()) ::
      if Replaced(instances, units, n) then NewRuntime(units[n]) else instances[n]
  }

  /** The cgroups `reload` creates, in the order it walks the units. */
  function NewCgroups(instances: map<Name, Runtime>, d: Directory, names: seq<Name>): seq<Name>
    requires forall n | n in names :: n in d.units
  {
    if names == [] then []
    else
      var n := names[0];
      var made := Replaced(instances, d.units, n) && d.units[n].IsService() && n in d.creatable;
      (if made then [n] else []) + NewCgroups(instances, d, names[1..])
  }

  function Reload(s: Sup, d: Directory): (Sup, Response)
  {
    if d.broken then (s, LoadErrors)
    else
      (s.(instances := Reloaded(s.instances, d.units),
          cgroups := s.cgroups + NewCgroups(s.instances, d, Sorted(d.units.Keys))),
       Accepted)
  }

  function Handle(s: Sup, request: Request, k: Kernel): (Sup, Response)
  {
    match request
    case ListRequest => (s, Listing)
    case StatusRequest(n) => (s, if n in s.instances then Listing else UnknownUnit)
    case StartRequest(n) =>
      if n !in s.instances then (s, UnknownUnit)
      else if s.shutdown.Some? then (s, Refused)
      else (Start(s, n, k), Accepted)
    case StopRequest(n) =>
      if n !in s.instances then (s, UnknownUnit) else (Stop(s, n, Requested, k), Accepted)
    case RestartRequest(n) =>
      if n !in s.instances then (s, UnknownUnit)
      else if s.shutdown.Some? then (s, Refused)
      else (RestartWhenStopped(Stop(s, n, Requested, k), n, k), Accepted)
    case ReloadRequest(d) => Reload(s, d)
  }

  function RestartWhenStopped(s: Sup, n: Name, k: Kernel): Sup
  {
    if n !in s.instances then s
    else if s.instances[n].Idle() then Start(s, n, k)
    else s.(pendingRestart := s.pendingRestart + {n})
  }

  // ----- Shutdown -----

  function Missing(order: seq<Name>, names: seq<Name>): (r: seq<Name>)
    ensures forall n :: n in r <==> n in names && n !in order
  {
    if names == [] then []
    else (if names[0] in order then [] else [names[0]]) + Missing(order, names[1..])
  }

  function Reverse(q: seq<Name>): (r: seq<Name>)
    ensures forall n :: n in r <==> n in q
  {
    if q == [] then [] else Reverse(q[1..]) + [q[0]]
  }

  /** The resolved order backwards, then every instance that is not in it. */
  function StopOrder(s: Sup): (r: seq<Name>)
    ensures forall n | n in s.instances :: n in r
  {
    Reverse(s.order) + Missing(s.order, Sorted(s.instances.Keys))
  }

  function StopEach(s: Sup, names: seq<Name>, k: Kernel): Sup
    decreases |names|
  {
    if names == [] then s else StopEach(Stop(s, names[0], Requested, k), names[1..], k)
  }

  function BeginShutdown(s: Sup, action: Action, k: Kernel): Sup
  {
    if s.shutdown.Some? then s
    else
      var s := Drew(s, k).(shutdown := Some(Shutdown(action, k(s.asked).now)));
      StopEach(s, StopOrder(s), k)
  }

  /** What to do now: the action once nothing is busy, or once waiting has gone on long enough. */
  function Settled(s: Sup, now: nat): Option<Action>
  {
    if s.shutdown.None? then None
    else if (forall n | n in s.instances :: s.instances[n].Idle()) || s.shutdown.value.Overdue(now)
    then Some(s.shutdown.value.action)
    else None
  }

  // ----- Runs -----

  datatype Event =
    | BootEvent
    | PumpEvent
    | ChildEvent(reaped: seq<Reaped>)
    | CgroupEvent(id: nat, populated: Option<bool>)
    | NotifyEvent(messages: seq<Message>)
    | TimerEvent(fired: seq<Entry>, left: multiset<Entry>)
    | WallEvent(stepped: bool, fired: seq<Entry>, left: multiset<Entry>)
    | SocketEvent(id: nat)
    | ControlEvent(request: Request)
    | ShutdownEvent(action: Action)

  /** A timer event hands over exactly what is due; a reload reads only units the parser accepts. */
  ghost predicate Possible(s: Sup, e: Event, k: Kernel)
  {
    match e
    case TimerEvent(fired, left) => IsExpiry(s.heap, k(s.asked).now, fired, left)
    case WallEvent(stepped, fired, left) =>
      if stepped then fired == [] && left == s.wallHeap
      else IsExpiry(s.wallHeap, k(s.asked).wall, fired, left)
    case ControlEvent(request) => request.ReloadRequest? ==> AllValid(request.directory.units)
    case _ => true
  }

  function Step(s: Sup, e: Event, k: Kernel): Sup
  {
    match e
    case BootEvent => StartAll(s, k)
    case PumpEvent => Pump(s, k)
    case ChildEvent(reaped) => ReapAll(s, reaped, k)
    case CgroupEvent(id, populated) => OnCgroup(s, id, populated, k)
    case NotifyEvent(messages) => ReceiveAll(s, messages, k)
    case TimerEvent(fired, left) => FireAll(Drew(s, k).(heap := left), AlarmsOf(fired), k)
    case WallEvent(_, fired, left) => FireWall(Drew(s, k).(wallHeap := left), AlarmsOf(fired), k)
    case SocketEvent(id) => OnSocket(s, id, k)
    case ControlEvent(request) => Handle(s, request, k).0
    case ShutdownEvent(action) => BeginShutdown(s, action, k)
  }

  function Run(s: Sup, events: seq<Event>, k: Kernel): Sup
    decreases |events|
  {
    if events == [] then s else Run(Step(s, events[0], k), events[1..], k)
  }

  ghost predicate PossibleRun(s: Sup, events: seq<Event>, k: Kernel)
    decreases |events|
  {
    events == [] || (Possible(s, events[0], k) && PossibleRun(Step(s, events[0], k), events[1..], k))
  }
}
