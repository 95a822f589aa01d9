/** The main loop over the supervisor object: whatever wakes it, what holds of the object holds after every turn. */
module SupervisorLoop {
  import opened Names
  import opened Wrappers
  import opened Units
  import opened Services
  import opened Alarms
  import opened Graph
  import opened Resolver
  import opened Supervision
  import opened SupervisionSafety
  import opened SupervisionRuns
  import opened SupervisionTheorems
  import opened Boot
  import opened Supervisors

  /** What can wake the loop, and what it hands over. */
  datatype Input =
    | Booted
    | ChildrenGone(reaped: seq<Reaped>)
    | CgroupChanged(id: nat, populated: Option<bool>)
    | Notified(messages: seq<Message>)
    | TimerRang
    | WallTimerRang(stepped: bool)
    | Connected(id: nat)
    | Asked(request: Request)
    | GoingDown(action: Action)
  {
    /** A reload reads only units the parser accepts. */
    predicate Readable()
    {
      Asked? && request.ReloadRequest? ==> AllValid(request.directory.units)
    }

    predicate Reloads()
    {
      Asked? && request.ReloadRequest?
    }
  }

  method RingTimer(sup: Supervisor, k: Kernel) returns (ghost e: Event)
    modifies sup, sup.timers
    ensures e.TimerEvent? && Possible(old(sup.State()), e, k) && sup.State() == Step(old(sup.State()), e, k)
  {
    hide FireAll, IsExpiry;
    ghost var left;
    var fired;
    fired, left := sup.OnTimer(k);
    e := TimerEvent(fired, left);
  }

  method RingWallTimer(sup: Supervisor, stepped: bool, k: Kernel) returns (ghost e: Event)
    modifies sup, sup.timers
    ensures e.WallEvent? && Possible(old(sup.State()), e, k) && sup.State() == Step(old(sup.State()), e, k)
  {
    hide FireWall, IsExpiry;
    ghost var left;
    var fired;
    fired, left := sup.OnWallTimer(stepped, k);
    e := WallEvent(stepped, fired, left);
  }

  /** One handler; `e` is the event the object went through. */
  method Dispatch(sup: Supervisor, input: Input, k: Kernel) returns (ghost e: Event)
    requires input.Readable()
    modifies sup, sup.timers
    ensures Possible(old(sup.State()), e, k) && sup.State() == Step(old(sup.State()), e, k)
    ensures IsReload(e) <==> input.Reloads()
  {
    hide StartAll, ReapAll, OnCgroup, ReceiveAll, FireAll, FireWall, OnSocket, Handle, BeginShutdown, IsExpiry;
    hide Supervisor.State;
    match input {
      case Booted =>
        e := BootEvent;
        sup.StartAllUnits(k);
      case ChildrenGone(reaped) =>
        e := ChildEvent(reaped);
        sup.OnSigchld(reaped, k);
      case CgroupChanged(id, populated) =>
        e := CgroupEvent(id, populated);
        sup.OnCgroupChange(id, populated, k);
      case Notified(messages) =>
        e := NotifyEvent(messages);
        sup.OnNotify(messages, k);
      case TimerRang =>
        e := RingTimer(sup, k);
      case WallTimerRang(stepped) =>
        e := RingWallTimer(sup, stepped, k);
      case Connected(id) =>
        e := SocketEvent(id);
        sup.OnConnection(id, k);
      case Asked(request) =>
        e := ControlEvent(request);
        var _ := sup.HandleRequest(request, k);
      case GoingDown(action) =>
        e := ShutdownEvent(action);
        sup.BeginGoingDown(action, k);
    }
  }

  predicate AllReadable(inputs: seq<Input>)
  {
    forall i | 0 <= i < |inputs| :: inputs[i].Readable()
  }

  predicate NoneReloads(inputs: seq<Input>)
  {
    forall i | 0 <= i < |inputs| :: !inputs[i].Reloads()
  }

  ghost predicate NoReload(events: seq<Event>)
  {
    forall i | 0 <= i < |events| :: !IsReload(events[i])
  }

  /** Everything that woke the loop, and then the start queue, once. */
  method Turn(sup: Supervisor, inputs: seq<Input>, k: Kernel, ghost start: Sup, ghost before: seq<Event>)
    returns (ghost events: seq<Event>)
    requires AllReadable(inputs) && PossibleRun(start, before, k) && sup.State() == Run(start, before, k)
    modifies sup, sup.timers
    ensures PossibleRun(start, events + [PumpEvent], k) && sup.State() == Run(start, events + [PumpEvent], k)
    ensures NoReload(before) && NoneReloads(inputs) ==> NoReload(events)
  {
    hide Step, Run, PossibleRun;
    events := before;
    for i := 0 to |inputs|
      invariant PossibleRun(start, events, k) && sup.State() == Run(start, events, k)
      invariant NoReload(before) && NoneReloads(inputs[..i]) ==> NoReload(events)
    {
      TakeOneMore(inputs, i);
      ghost var e := Dispatch(sup, inputs[i], k);
      RunOneMore(start, events, e, k);
      events := events + [e];
    }
    TakeAll(inputs);
    PumpIsAStep(start, events, k);
    sup.PumpQueue(k);
  }

  lemma PumpIsAStep(start: Sup, events: seq<Event>, k: Kernel)
    requires PossibleRun(start, events, k)
    ensures PossibleRun(start, events + [PumpEvent], k)
    ensures Run(start, events + [PumpEvent], k) == Pump(Run(start, events, k), k)
  {
    hide Run, PossibleRun, Pump;
    RunOneMore(start, events, PumpEvent, k);
  }

  /**
   * No wait of any unit the object holds is without an alarm in its own queue, due within the unit's own bound, and no
   * active timer that recurs is without its next firing.
   */
  ghost predicate WaitsAreBounded(sup: Supervisor)
    reads sup, sup.timers
  {
    forall n | n in sup.instances ::
      var r := sup.instances[n];
      && (r.state.Activating? || r.state.Deactivating? ==> r.unit.IsService())
      && (r.state.Restarting? ==> HoldsBy(sup.timers.heap, RestartDue(n), sup.clock + LongestBackoff(r.unit)))
      && (r.state.Activating? ==> HoldsBy(sup.timers.heap, StartTimeout(n), sup.clock + r.unit.kind.service.startSec))
      && (r.state.Deactivating? ==>
            r.killed || HoldsBy(sup.timers.heap, Alarm.StopTimeout(n), sup.clock + r.unit.kind.service.stopSec))
      && (r.state.Active? && r.Watchdog().Some? ==>
            HoldsBy(sup.timers.heap, Alarm.WatchdogCheck(n), sup.clock + r.Watchdog().value))
      && (r.state.Active? && r.unit.IsTimer() && r.unit.kind.schedule.Recurring() ==>
            Holds(sup.timers.heap, TimerElapsed(n)) || Holds(sup.timers.wallHeap, TimerElapsed(n)))
  }

  predicate IsUp(r: Runtime)
  {
    r.state.Activating? || r.state.Active?
  }

  /** No two units the object holds that exclude each other are both up. */
  ghost predicate ExclusionHolds(sup: Supervisor)
    reads sup
  {
    forall a, b |
      a in sup.instances && b in sup.instances && a != b && IsUp(sup.instances[a]) && IsUp(sup.instances[b]) ::
      b !in sup.instances[a].unit.deps.conflicts && a !in sup.instances[b].unit.deps.conflicts
  }

  /** On the way down nothing the object holds is up or coming back. */
  ghost predicate DownIsClosed(sup: Supervisor)
    reads sup
  {
    sup.shutdown.Some? ==> forall n | n in sup.instances :: Quiet(sup.instances[n])
  }

  lemma SafeMeans(sup: Supervisor)
    requires Safe(sup.State(), [], [])
    ensures WaitsAreBounded(sup) && ExclusionHolds(sup) && DownIsClosed(sup)
  {
    var s := sup.State();
    forall n | n in sup.instances ensures Watched(DueOf(s, [], []), n, s.instances[n]) {
    }
    forall a, b | a in sup.instances && b in sup.instances && a != b && IsUp(sup.instances[a]) && IsUp(sup.instances[b])
      ensures b !in sup.instances[a].unit.deps.conflicts && a !in sup.instances[b].unit.deps.conflicts
    {
      assert Up(s, a) && Up(s, b);
      assert !Conflict(s, a, b);
    }
  }

  /** Every process tracked in `t` is the one tracked for the same unit in `s`. */
  ghost predicate OnlyTracks(t: Sup, s: Sup)
  {
    forall n | n in Tracked(t) :: n in Tracked(s) && Tracked(t)[n] == Tracked(s)[n]
  }

  /**
   * Any number of turns, from any state the object has come to safely: it stays so, and a shutdown that had begun is
   * the same shutdown, with no unit stopping that was not stopping already and no process that was not there.
   */
  method Serve(sup: Supervisor, turns: seq<seq<Input>>, k: Kernel) returns (ghost events: seq<Event>)
    requires forall i | 0 <= i < |turns| :: AllReadable(turns[i])
    requires Safe(sup.State(), [], [])
    modifies sup, sup.timers
    ensures PossibleRun(old(sup.State()), events, k) && sup.State() == Run(old(sup.State()), events, k)
    ensures Safe(sup.State(), [], []) && WaitsAreBounded(sup) && ExclusionHolds(sup) && DownIsClosed(sup)
    ensures old(sup.shutdown).Some? ==>
              sup.shutdown == old(sup.shutdown)
              && Stopping(sup.State()) <= Stopping(old(sup.State())) && OnlyTracks(sup.State(), old(sup.State()))
    ensures turns != [] ==> events != [] && events[|events| - 1] == PumpEvent
    ensures (forall i | 0 <= i < |turns| :: NoneReloads(turns[i])) ==> NoReload(events)
  {
    hide Run, PossibleRun, Step, Safe, WaitsAreBounded, ExclusionHolds, DownIsClosed;
    ghost var start := sup.State();
    events := [];
    NothingHappened(start, k);
    for i := 0 to |turns|
      invariant PossibleRun(start, events, k) && sup.State() == Run(start, events, k)
      invariant i > 0 ==> events != [] && events[|events| - 1] == PumpEvent
      invariant (forall j | 0 <= j < i :: NoneReloads(turns[j])) ==> NoReload(events)
    {
      ghost var front := Turn(sup, turns[i], k, start, events);
      events := front + [PumpEvent];
    }
    RunKeeps(start, events, k);
    SafeMeans(sup);
    if start.shutdown.Some? {
      KeptStopping(start, sup.State());
    }
  }

  lemma NothingHappened(s: Sup, k: Kernel)
    ensures PossibleRun(s, [], k) && Run(s, [], k) == s
  {
  }

  lemma KeptStopping(s: Sup, t: Sup)
    requires Keeps(s, t) && s.shutdown.Some?
    ensures t.shutdown == s.shutdown && Stopping(t) <= Stopping(s) && OnlyTracks(t, s)
  {
  }

  /**
   * From loading on: whatever wakes the loop, however often, the object's waits are bounded, its exclusions hold, and a
   * shutdown stays closed; and unless a reload got in between, a start queue that is not empty waits for a unit that is
   * activating and has its deadline.
   */
  method Live(units: UnitSet, creatable: set<Name>, binds: map<Name, nat>, turns: seq<seq<Input>>, k: Kernel)
    returns (sup: Supervisor)
    requires AllValid(units) && forall i | 0 <= i < |turns| :: AllReadable(turns[i])
    ensures WaitsAreBounded(sup) && ExclusionHolds(sup) && DownIsClosed(sup)
    ensures Resolvable(units, DEFAULT_UNIT) && turns != [] && (forall i | 0 <= i < |turns| :: NoneReloads(turns[i])) ==>
              sup.shutdown.None? && sup.pending != [] ==> exists dep :: Awaits(sup.State(), sup.pending[0], dep)
  {
    hide Run, PossibleRun, Step, Safe, WaitsAreBounded, ExclusionHolds, DownIsClosed, Awaits, IsPlan, Resolvable;
    hide Loaded;
    sup := new Supervisor(units, creatable, binds);
    ghost var s := sup.State();
    LoadedIsInitial(units, sup.order, sup.cgroups, sup.sockets);
    ghost var order, cgroups, sockets := sup.order, sup.cgroups, sup.sockets;
    ghost var events := Serve(sup, turns, k);
    if Resolvable(units, DEFAULT_UNIT) && turns != [] && forall i | 0 <= i < |turns| :: NoneReloads(turns[i]) {
      if sup.shutdown.None? && sup.pending != [] {
        LastPumpWaits(units, order, cgroups, sockets, events, k, sup.State());
      }
    }
  }

  lemma LastPumpWaits(
      units: UnitSet, order: seq<Name>, cgroups: seq<Name>, sockets: seq<Bound>, events: seq<Event>, k: Kernel, t: Sup)
    requires IsPlan(units, DEFAULT_UNIT, order) && AllValid(units)
    requires PossibleRun(Loaded(units, order, cgroups, sockets), events, k) && NoReload(events)
    requires events != [] && events[|events| - 1] == PumpEvent
    requires t == Run(Loaded(units, order, cgroups, sockets), events, k) && t.shutdown.None? && t.pending != []
    ensures exists dep :: Awaits(t, t.pending[0], dep)
  {
    hide Run, PossibleRun, Step, Safe, Awaits, IsPlan, Loaded, Pump;
    var s := Loaded(units, order, cgroups, sockets);
    var front := events[..|events| - 1];
    LastOff(events);
    RunAppend(s, front, [PumpEvent], k);
    PumpIsAStep(s, front, k);
    LoadedIsInitial(units, order, cgroups, sockets);
    RunKeeps(s, front, k);
    PumpKeeps(Run(s, front, k), k);
    BootNeverDeadlocks(units, order, cgroups, sockets, front, k, t);
  }
}
