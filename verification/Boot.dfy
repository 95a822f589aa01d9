/** Boot as a queue: the resolved order is what keeps the start queue from deadlocking. */
module Boot {
  import opened Names
  import opened Wrappers
  import opened Units
  import opened Services
  import opened Alarms
  import opened Graph
  import opened Resolver
  import opened Supervision
  import opened SupervisionSafety
  import opened SupervisionRuns
  import opened SupervisionTheorems

  /** The unit that boot brings up. */
  const DEFAULT_UNIT: Name := "default"

  /** A new instance of every unit that loaded, whether or not anything starts it. */
  function NewInstances(units: UnitSet): map<Name, Runtime>
  {
    map n | n in units :: NewRuntime(units[n])
  }

  /** The supervisor as loaded, before anything has started. */
  function Loaded(units: UnitSet, order: seq<Name>, cgroups: seq<Name>, sockets: seq<Bound>): Sup
  {
    Sup(NewInstances(units), order, [], {}, map[], multiset{}, multiset{}, cgroups, sockets, None, 0, 0)
  }

  // ----- The queue stays in resolved order -----

  /** A part of the order, in the order's order. */
  predicate InOrder(q: seq<Name>, order: seq<Name>)
  {
    (forall i | 0 <= i < |q| :: q[i] in order) &&
    forall i, j | 0 <= i < j < |q| :: IndexOf(order, q[i]) < IndexOf(order, q[j])
  }

  lemma {:induction false} WithoutInOrder(q: seq<Name>, n: Name, order: seq<Name>)
    requires InOrder(q, order)
    ensures InOrder(Without(q, n), order)
    decreases |q|
  {
    if q != [] {
      TailInOrder(q, order);
      WithoutInOrder(q[1..], n, order);
      if q[0] != n { ConsInOrder(q[0], Without(q[1..], n), order); }
    }
  }

  lemma TailInOrder(q: seq<Name>, order: seq<Name>)
    requires InOrder(q, order) && q != []
    ensures InOrder(q[1..], order) && q[0] in order
    ensures forall x | x in q[1..] :: IndexOf(order, q[0]) < IndexOf(order, x)
  {
    assert forall i | 0 <= i < |q| - 1 :: q[1..][i] == q[i + 1];
  }

  lemma Pushed(x: Name, q: seq<Name>, i: nat)
    requires 0 < i <= |q|
    ensures ([x] + q)[i] == q[i - 1] && q[i - 1] in q
  {
  }

  lemma ConsRises(x: Name, q: seq<Name>, order: seq<Name>, i: nat, j: nat)
    requires InOrder(q, order) && x in order && forall y | y in q :: IndexOf(order, x) < IndexOf(order, y)
    requires i < j <= |q|
    ensures ([x] + q)[i] in order && ([x] + q)[j] in order
    ensures IndexOf(order, ([x] + q)[i]) < IndexOf(order, ([x] + q)[j])
  {
    hide IndexOf;
    Pushed(x, q, j);
    if i > 0 { Pushed(x, q, i); }
  }

  lemma ConsInOrder(x: Name, q: seq<Name>, order: seq<Name>)
    requires InOrder(q, order) && x in order && forall y | y in q :: IndexOf(order, x) < IndexOf(order, y)
    ensures InOrder([x] + q, order)
  {
    hide IndexOf;
    var r := [x] + q;
    forall i | 0 <= i < |r| ensures r[i] in order {
      if i > 0 { Pushed(x, q, i); }
    }
    forall i, j | 0 <= i < j < |r| ensures IndexOf(order, r[i]) < IndexOf(order, r[j]) {
      ConsRises(x, q, order, i, j);
    }
  }

  lemma OrderIsInOrder(order: seq<Name>)
    requires Distinct(order)
    ensures InOrder(order, order)
  {
    forall i | 0 <= i < |order| ensures IndexOf(order, order[i]) == i {
      assert order[i] in order;
    }
  }

  /** What every operation but a reload keeps: the definitions, the order of the queue, and the deadlines armed. */
  ghost predicate Tidy(s: Sup, t: Sup)
  {
    SameUnits(s, t) && s.heap <= t.heap && (InOrder(s.pending, s.order) ==> InOrder(t.pending, s.order))
  }

  lemma TidyTransitive(s: Sup, t: Sup, u: Sup)
    requires Tidy(s, t) && Tidy(t, u)
    ensures Tidy(s, u)
  {
  }

  lemma DrewTidy(s: Sup, k: Kernel)
    ensures Tidy(s, Drew(s, k))
  {
  }

  lemma TouchTidy(s: Sup, t: Sup, n: Name)
    requires Touches(s, t, n) && t.pending == s.pending && s.heap <= t.heap
    ensures Tidy(s, t)
  {
  }

  lemma PutTidy(s: Sup, t: Sup, n: Name, r: Runtime)
    requires n in s.instances && r.unit == s.instances[n].unit && t.instances == s.instances[n := r]
    requires t.order == s.order && t.cgroups == s.cgroups && t.sockets == s.sockets && t.shutdown == s.shutdown
    requires t.pending == s.pending && s.heap <= t.heap
    ensures Tidy(s, t)
  {
    PutTouches(s, t, n, r);
  }

  lemma StopArms(s: Sup, n: Name, cause: StopCause, k: Kernel)
    ensures Stop(s, n, cause, k).pending == Without(s.pending, n) && s.heap <= Stop(s, n, cause, k).heap
  {
  }

  lemma StopTidy(s: Sup, n: Name, cause: StopCause, k: Kernel)
    ensures Tidy(s, Stop(s, n, cause, k))
  {
    hide Stop, InOrder;
    StopTouches(s, n, cause, k);
    StopArms(s, n, cause, k);
    if InOrder(s.pending, s.order) { WithoutInOrder(s.pending, n, s.order); }
  }

  lemma {:induction false} StopConflictsTidy(s: Sup, names: seq<Name>, k: Kernel)
    ensures Tidy(s, StopConflicts(s, names, k))
    decreases |names|
  {
    if names != [] {
      var mid := if Busy(s, names[0]) then Stop(s, names[0], Requested, k) else s;
      StopTidy(s, names[0], Requested, k);
      StopConflictsTidy(mid, names[1..], k);
      TidyTransitive(s, mid, StopConflicts(s, names, k));
    }
  }

  lemma ActivateArms(s: Sup, n: Name, k: Kernel)
    ensures s.heap <= Activate(s, n, k).heap
  {
  }

  lemma StartTidy(s: Sup, n: Name, k: Kernel)
    ensures Tidy(s, Start(s, n, k))
  {
    if s.shutdown.None? {
      var mid := StopConflicts(s, ConflictingWith(s, n), k);
      StopConflictsTidy(s, ConflictingWith(s, n), k);
      ActivateTouches(mid, n, k);
      ActivateArms(mid, n, k);
      TouchTidy(mid, Activate(mid, n, k), n);
      TidyTransitive(s, mid, Activate(mid, n, k));
    }
  }

  lemma DequeueTidy(s: Sup, n: Name, k: Kernel)
    requires n in s.pending
    ensures Tidy(s, Dequeue(s, n, k))
  {
    var mid := s.(pending := Without(s.pending, n));
    if InOrder(s.pending, s.order) { WithoutInOrder(s.pending, n, s.order); }
    assert Tidy(s, mid);
    if RequirementFailed(mid, n) {
      PutTidy(mid, Dequeue(s, n, k), n, mid.instances[n].FailedToStart());
    } else {
      StartTidy(mid, n, k);
    }
    TidyTransitive(s, mid, Dequeue(s, n, k));
  }

  lemma {:induction false} PumpTidy(s: Sup, k: Kernel)
    ensures Tidy(s, Pump(s, k))
    decreases |s.pending|
  {
    match NextStartable(s, s.pending)
    case None =>
    case Some(n) =>
      if s.shutdown.None? {
        DequeueTidy(s, n, k);
        PumpTidy(Dequeue(s, n, k), k);
        TidyTransitive(s, Dequeue(s, n, k), Pump(s, k));
      }
  }

  lemma SettleTidy(s: Sup, n: Name, after: Runtime, delay: Option<nat>, now: nat)
    requires n in s.instances && after.unit == s.instances[n].unit
    ensures Tidy(s, Settle(s, n, after, delay, now))
  {
    PutTidy(s, Settle(s, n, after, delay, now), n, Settle(s, n, after, delay, now).instances[n]);
  }

  lemma FinishTidy(s: Sup, n: Name, k: Kernel)
    ensures Tidy(s, FinishDeactivation(s, n, k))
  {
    hide Start, Settle;
    var now, drew := k(s.asked).now, Drew(s, k);
    if n in s.instances && s.instances[n].state.Deactivating? {
      var (after, delay) := s.instances[n].Deactivated(now);
      var mid := Settle(drew, n, after, delay, now);
      SettleTidy(drew, n, after, delay, now);
      TidyTransitive(s, drew, mid);
      var asked := mid.(pendingRestart := mid.pendingRestart - {n});
      StartTidy(asked, n, k);
      TidyTransitive(mid, asked, Start(asked, n, k));
      TidyTransitive(s, mid, Start(asked, n, k));
    }
  }

  lemma ExitedTidy(s: Sup, n: Name, exit: Exit, now: nat, k: Kernel)
    requires n in s.instances
    ensures var (after, delay) := s.instances[n].OnExit(exit, now);
            var t := Settle(s, n, after, delay, now);
            Tidy(s, t) && Tidy(s, FinishDeactivation(t, n, k))
  {
    var (after, delay) := s.instances[n].OnExit(exit, now);
    OnExitEnds(s.instances[n], exit, now);
    var t := Settle(s, n, after, delay, now);
    SettleTidy(s, n, after, delay, now);
    FinishTidy(t, n, k);
    TidyTransitive(s, t, FinishDeactivation(t, n, k));
  }

  lemma ForkingTidy(s: Sup, n: Name, exit: Exit, a: Answer)
    requires n in s.instances
    ensures Tidy(s, ForkingParentExited(s, n, exit, a))
  {
    var t := ForkingParentExited(s, n, exit, a);
    PutTidy(s, t, n, t.instances[n]);
  }

  lemma ReapTidy(s: Sup, pid: nat, exit: Exit, k: Kernel)
    ensures Tidy(s, Reap(s, pid, exit, k))
  {
    hide Settle, FinishDeactivation, ForkingParentExited, Tidy, UnitForPid;
    var a, drew := k(s.asked), Drew(s, k);
    DrewTidy(s, k);
    match UnitForPid(drew, pid)
    case None =>
    case Some(n) =>
      ForkingTidy(drew, n, exit, a);
      ExitedTidy(drew, n, exit, a.now, k);
      TidyTransitive(s, drew, Reap(s, pid, exit, k));
  }

  lemma {:induction false} ReapAllTidy(s: Sup, reaped: seq<Reaped>, k: Kernel)
    ensures Tidy(s, ReapAll(s, reaped, k))
    decreases |reaped|
  {
    if reaped != [] {
      var mid := Reap(s, reaped[0].pid, reaped[0].exit, k);
      ReapTidy(s, reaped[0].pid, reaped[0].exit, k);
      ReapAllTidy(mid, reaped[1..], k);
      TidyTransitive(s, mid, ReapAll(s, reaped, k));
    }
  }

  lemma VanishedTidy(s: Sup, n: Name, now: nat)
    requires n in s.instances
    ensures Tidy(s, UnitVanished(s, n, now))
  {
    hide InOrder;
    OnExitEnds(s.instances[n], Abnormal, now);
    PutTidy(s, UnitVanished(s, n, now), n, s.instances[n].OnExit(Abnormal, now).0);
  }

  lemma OnCgroupTidy(s: Sup, id: nat, populated: Option<bool>, k: Kernel)
    ensures Tidy(s, OnCgroup(s, id, populated, k))
  {
    hide Tidy, FinishDeactivation, UnitVanished;
    var now, drew := k(s.asked).now, Drew(s, k);
    DrewTidy(s, k);
    if id < |s.cgroups| && s.cgroups[id] in s.instances {
      var n := s.cgroups[id];
      FinishTidy(drew, n, k);
      TidyTransitive(s, drew, FinishDeactivation(drew, n, k));
      VanishedTidy(drew, n, now);
      TidyTransitive(s, drew, UnitVanished(drew, n, now));
    }
  }

  lemma BecomeTidy(s: Sup, n: Name, i: Runtime, ready: bool, now: nat)
    requires n in s.instances && i.unit == s.instances[n].unit
    ensures Tidy(s, Become(s, n, i, ready, now))
  {
    hide InOrder;
    PutTidy(s, Become(s, n, i, ready, now), n, if ready && i.state.Activating? then i.EnteredActive(now) else i);
  }

  lemma ReceiveTidy(s: Sup, m: Message, k: Kernel)
    ensures Tidy(s, Receive(s, m, k))
  {
    hide Tidy, Heard, Become, UnitForPid;
    var now, drew := k(s.asked).now, Drew(s, k);
    DrewTidy(s, k);
    match UnitForPid(drew, m.pid)
    case None =>
    case Some(n) =>
      BecomeTidy(drew, n, Heard(drew.instances[n], m, now), m.ready, now);
      TidyTransitive(s, drew, Receive(s, m, k));
  }

  lemma {:induction false} ReceiveAllTidy(s: Sup, messages: seq<Message>, k: Kernel)
    ensures Tidy(s, ReceiveAll(s, messages, k))
    decreases |messages|
  {
    hide Receive, InOrder;
    if messages != [] {
      ReceiveTidy(s, messages[0], k);
      ReceiveAllTidy(Receive(s, messages[0], k), messages[1..], k);
      TidyTransitive(s, Receive(s, messages[0], k), ReceiveAll(s, messages, k));
    }
  }

  lemma TimerElapsedTidy(s: Sup, n: Name, k: Kernel)
    ensures Tidy(s, OnTimerElapsed(s, n, k))
  {
    hide Start;
    var a, drew := k(s.asked), Drew(s, k);
    DrewTidy(s, k);
    if n in s.instances && s.instances[n].unit.IsTimer() {
      var timer := s.instances[n].unit.kind;
      var mid := Arm(drew, n, timer.schedule.Following(a.wall), a.now);
      StartTidy(mid, timer.starts, k);
      TidyTransitive(s, mid, Start(mid, timer.starts, k));
    }
  }

  lemma FireTidy(s: Sup, alarm: Alarm, k: Kernel)
    ensures Tidy(s, Fire(s, alarm, k))
  {
    hide Start, Stop;
    match alarm
    case RestartDue(n) => StartTidy(s, n, k);
    case WatchdogCheck(n) =>
      StopTidy(Drew(s, k), n, Watchdog, k);
      TidyTransitive(s, Drew(s, k), Stop(Drew(s, k), n, Watchdog, k));
    case StopTimeout(n) =>
      if n in s.instances && s.instances[n].state.Deactivating? {
        PutTidy(s, OnStopTimeout(s, n), n, s.instances[n].StopTimedOut());
      }
    case TimerElapsed(n) => TimerElapsedTidy(s, n, k);
    case StartTimeout(n) => StopTidy(s, n, Watchdog, k);
  }

  lemma {:induction false} FireAllTidy(s: Sup, alarms: seq<Alarm>, k: Kernel)
    ensures Tidy(s, FireAll(s, alarms, k))
    decreases |alarms|
  {
    if alarms != [] {
      FireTidy(s, alarms[0], k);
      FireAllTidy(Fire(s, alarms[0], k), alarms[1..], k);
      TidyTransitive(s, Fire(s, alarms[0], k), FireAll(s, alarms, k));
    }
  }

  lemma {:induction false} FireWallTidy(s: Sup, alarms: seq<Alarm>, k: Kernel)
    ensures Tidy(s, FireWall(s, alarms, k))
    decreases |alarms|
  {
    if alarms != [] {
      var mid := if alarms[0].TimerElapsed? then OnTimerElapsed(s, alarms[0].who, k) else s;
      TimerElapsedTidy(s, alarms[0].who, k);
      FireWallTidy(mid, alarms[1..], k);
      TidyTransitive(s, mid, FireWall(s, alarms, k));
    }
  }

  lemma {:induction false} StopEachTidy(s: Sup, names: seq<Name>, k: Kernel)
    ensures Tidy(s, StopEach(s, names, k))
    decreases |names|
  {
    if names != [] {
      StopTidy(s, names[0], Requested, k);
      StopEachTidy(Stop(s, names[0], Requested, k), names[1..], k);
      TidyTransitive(s, Stop(s, names[0], Requested, k), StopEach(s, names, k));
    }
  }

  lemma RestartTidy(s: Sup, n: Name, k: Kernel)
    ensures Tidy(s, RestartWhenStopped(s, n, k))
  {
    hide Start;
    StartTidy(s, n, k);
  }

  lemma HandleTidy(s: Sup, request: Request, k: Kernel)
    requires !request.ReloadRequest?
    ensures Tidy(s, Handle(s, request, k).0)
  {
    hide Start, Stop, RestartWhenStopped;
    match request
    case StartRequest(n) => StartTidy(s, n, k);
    case StopRequest(n) => StopTidy(s, n, Requested, k);
    case RestartRequest(n) =>
      var mid := Stop(s, n, Requested, k);
      StopTidy(s, n, Requested, k);
      RestartTidy(mid, n, k);
      TidyTransitive(s, mid, RestartWhenStopped(mid, n, k));
    case _ =>
  }

  predicate IsReload(e: Event)
  {
    e.ControlEvent? && e.request.ReloadRequest?
  }

  /** Tidiness looks at the instances, the configuration and the queue, and at nothing else. */
  lemma SameTidy(s: Sup, t: Sup)
    requires t.instances == s.instances && t.order == s.order && t.cgroups == s.cgroups && t.sockets == s.sockets
    requires t.pending == s.pending && s.heap <= t.heap
    ensures Tidy(s, t)
  {
  }

  /** Where an event starts from: a boot refills the queue, and an expiry takes out what is due. */
  function Handed(s: Sup, e: Event): Sup
  {
    match e
    case BootEvent => s.(pending := s.order)
    case TimerEvent(_, left) => s.(heap := left)
    case _ => s
  }

  lemma AlarmsTidy(s: Sup, e: Event, k: Kernel)
    requires e.TimerEvent? || e.WallEvent?
    ensures Tidy(Handed(s, e), Step(s, e, k))
  {
    hide Tidy, FireAll, FireWall;
    match e
    case TimerEvent(fired, left) =>
      SameTidy(Handed(s, e), Drew(s, k).(heap := left));
      FireAllTidy(Drew(s, k).(heap := left), AlarmsOf(fired), k);
      TidyTransitive(Handed(s, e), Drew(s, k).(heap := left), Step(s, e, k));
    case WallEvent(_, fired, left) =>
      SameTidy(s, Drew(s, k).(wallHeap := left));
      FireWallTidy(Drew(s, k).(wallHeap := left), AlarmsOf(fired), k);
      TidyTransitive(s, Drew(s, k).(wallHeap := left), Step(s, e, k));
  }

  lemma ShutdownTidy(s: Sup, action: Action, k: Kernel)
    ensures Tidy(s, BeginShutdown(s, action, k))
  {
    hide Tidy, StopEach;
    SameTidy(s, s);
    if s.shutdown.None? {
      var begun := Drew(s, k).(shutdown := Some(Shutdown(action, k(s.asked).now)));
      SameTidy(s, begun);
      StopEachTidy(begun, StopOrder(begun), k);
      TidyTransitive(s, begun, BeginShutdown(s, action, k));
    }
  }

  lemma SocketTidy(s: Sup, id: nat, k: Kernel)
    ensures Tidy(s, OnSocket(s, id, k))
  {
    hide Tidy, Start;
    SameTidy(s, s);
    if id < |s.sockets| { StartTidy(s, s.sockets[id].service, k); }
  }

  /**
   * Every event but a reload keeps the definitions, the queue's order and the deadlines that are not due;
   * `start_all` refills the queue from the order itself.
   */
  lemma StepTidy(s: Sup, e: Event, k: Kernel)
    requires !IsReload(e)
    ensures Tidy(Handed(s, e), Step(s, e, k))
  {
    hide Tidy, Pump, ReapAll, OnCgroup, ReceiveAll, FireAll, FireWall, OnSocket, Handle, BeginShutdown;
    match e
    case BootEvent => PumpTidy(s.(pending := s.order), k);
    case PumpEvent => PumpTidy(s, k);
    case ChildEvent(reaped) => ReapAllTidy(s, reaped, k);
    case CgroupEvent(id, populated) => OnCgroupTidy(s, id, populated, k);
    case NotifyEvent(messages) => ReceiveAllTidy(s, messages, k);
    case TimerEvent(_, _) => AlarmsTidy(s, e, k);
    case WallEvent(_, _, _) => AlarmsTidy(s, e, k);
    case SocketEvent(id) => SocketTidy(s, id, k);
    case ControlEvent(request) => HandleTidy(s, request, k);
    case ShutdownEvent(action) => ShutdownTidy(s, action, k);
  }

  lemma {:induction false} RunTidy(s: Sup, events: seq<Event>, k: Kernel)
    requires (forall i | 0 <= i < |events| :: !IsReload(events[i])) && Distinct(s.order) && InOrder(s.pending, s.order)
    ensures SameUnits(s, Run(s, events, k)) && InOrder(Run(s, events, k).pending, s.order)
    decreases |events|
  {
    hide Step;
    if events != [] {
      StepTidy(s, events[0], k);
      OrderIsInOrder(s.order);
      RunTidy(Step(s, events[0], k), events[1..], k);
    }
  }

  // ----- No deadlock -----

  /** `pump` returns only when nothing queued can start. */
  lemma {:induction false} PumpDrains(s: Sup, k: Kernel)
    requires s.shutdown.None?
    ensures forall n | n in Pump(s, k).pending :: !OrderingSatisfied(Pump(s, k), n)
    decreases |s.pending|
  {
    hide Start;
    match NextStartable(s, s.pending)
    case None =>
    case Some(n) => PumpDrains(Dequeue(s, n, k), k);
  }

  /** What a queued unit is ordered after comes earlier in the resolved order. */
  lemma EdgeClimbs(units: UnitSet, wanted: set<Name>, order: seq<Name>, dep: Name, n: Name)
    requires Lists(order, wanted) && Respects(Ordering(units, wanted), order)
    requires n in units && dep in units[n].deps.after && n in order && dep in order
    ensures IndexOf(order, dep) < IndexOf(order, n)
  {
    assert Declares(units, n, dep, n);
    assert (dep, n) in Ordering(units, wanted);
    assert order[IndexOf(order, dep)] == dep && order[IndexOf(order, n)] == n;
  }

  lemma EdgeRises(units: UnitSet, wanted: set<Name>, order: seq<Name>, a: Name, b: Name)
    requires Lists(order, wanted) && Respects(Ordering(units, wanted), order) && a in order && b in order
    requires Declares(units, a, a, b) || Declares(units, b, a, b)
    ensures IndexOf(order, a) < IndexOf(order, b)
  {
    assert (a, b) in Ordering(units, wanted);
    assert order[IndexOf(order, a)] == a && order[IndexOf(order, b)] == b;
  }

  /**
   * What a plan does for each unit in it: what the unit requires is there, and what it wants if it exists; what it is
   * after comes before it, what it is before comes after it, and so does the service that it opens a socket for;
   * nothing it conflicts with is there.
   */
  lemma PlanDoesWhatUnitsSay(units: UnitSet, order: seq<Name>, n: Name, x: Name)
    requires IsPlan(units, DEFAULT_UNIT, order) && DEFAULT_UNIT in units && n in order
    ensures DEFAULT_UNIT in order && n in units
    ensures x in units && (x in units[n].deps.needs || x in units[n].deps.wants) ==> x in order
    ensures x in order && x in units[n].deps.after ==> IndexOf(order, x) < IndexOf(order, n)
    ensures x in order && x in units[n].deps.before ==> IndexOf(order, n) < IndexOf(order, x)
    ensures x in order && units[n].IsSocket() && units[n].kind.activates == x ==> IndexOf(order, n) < IndexOf(order, x)
    ensures x in units[n].deps.conflicts ==> x !in order
  {
    hide Ordering, IndexOf;
    var wanted := Closure(units, DEFAULT_UNIT);
    ClosureIsLeast(units, DEFAULT_UNIT);
    assert n in wanted;
    assert x in units && (x in units[n].deps.needs || x in units[n].deps.wants) ==> PullsIn(units, n, x);
    if x in order {
      if x in units[n].deps.after { EdgeRises(units, wanted, order, x, n); }
      if x in units[n].deps.before || (units[n].IsSocket() && units[n].kind.activates == x) {
        EdgeRises(units, wanted, order, n, x);
      }
    }
  }

  /** So the head of the queue waits for nothing that is queued. */
  lemma HeadWaitsForActivation(units: UnitSet, wanted: set<Name>, t: Sup)
    requires Lists(t.order, wanted) && Respects(Ordering(units, wanted), t.order) && wanted <= units.Keys
    requires t.instances.Keys == units.Keys && forall n | n in units :: t.instances[n].unit == units[n]
    requires InOrder(t.pending, t.order) && t.pending != [] && !OrderingSatisfied(t, t.pending[0])
    ensures exists dep ::
              dep in units[t.pending[0]].deps.after && dep in t.instances && t.instances[dep].state.Activating?
  {
    var head := t.pending[0];
    assert head in t.order && head in wanted;
    forall dep | dep in units[head].deps.after ensures dep !in t.pending {
      if dep in t.order { EdgeClimbs(units, wanted, t.order, dep, head); }
      assert forall i | 0 <= i < |t.pending| :: IndexOf(t.order, head) <= IndexOf(t.order, t.pending[i]);
    }
  }

  /** `n` waits for `dep`, which is activating, and that wait ends within the unit's own `start-sec`. */
  ghost predicate Awaits(t: Sup, n: Name, dep: Name)
  {
    && n in t.instances && dep in t.instances[n].unit.deps.after
    && dep in t.instances && t.instances[dep].state.Activating? && t.instances[dep].unit.IsService()
    && HoldsBy(t.heap, StartTimeout(dep), t.clock + t.instances[dep].unit.kind.service.startSec)
  }

  /** Being stuck is bounded: the activation waited for has its deadline. */
  lemma StuckIsBounded(units: UnitSet, wanted: set<Name>, t: Sup)
    requires Lists(t.order, wanted) && Respects(Ordering(units, wanted), t.order) && wanted <= units.Keys
    requires t.instances.Keys == units.Keys && forall n | n in units :: t.instances[n].unit == units[n]
    requires Safe(t, [], []) && InOrder(t.pending, t.order) && t.pending != []
    requires forall n | n in t.pending :: !OrderingSatisfied(t, n)
    ensures exists dep :: Awaits(t, t.pending[0], dep)
  {
    HeadWaitsForActivation(units, wanted, t);
    var dep :| dep in units[t.pending[0]].deps.after && dep in t.instances && t.instances[dep].state.Activating?;
    assert Watched(DueOf(t, [], []), dep, t.instances[dep]);
    assert Awaits(t, t.pending[0], dep);
  }

  /**
   * Boot never deadlocks. For every unit set the resolver accepts and every
   * history without a reload, whenever `pump` returns with units still queued
   * and no shutdown begun, the unit at the head of the queue is waiting for a
   * unit that is activating, and that unit's start timeout is outstanding.
   */
  lemma BootNeverDeadlocks(
      units: UnitSet, order: seq<Name>, cgroups: seq<Name>, sockets: seq<Bound>, events: seq<Event>, k: Kernel, t: Sup)
    requires IsPlan(units, DEFAULT_UNIT, order) && AllValid(units)
    requires PossibleRun(Loaded(units, order, cgroups, sockets), events, k)
    requires forall i | 0 <= i < |events| :: !IsReload(events[i])
    requires Run(Loaded(units, order, cgroups, sockets), events, k).shutdown.None?
    requires t == Pump(Run(Loaded(units, order, cgroups, sockets), events, k), k) && t.pending != []
    ensures exists dep :: Awaits(t, t.pending[0], dep)
  {
    hide Step, Pump, Safe, InOrder, OrderingSatisfied, Awaits;
    var s := Loaded(units, order, cgroups, sockets);
    var before := Run(s, events, k);
    LoadedIsInitial(units, order, cgroups, sockets);
    RunKeeps(s, events, k);
    RunTidy(s, events, k);
    PumpKeeps(before, k);
    PumpTidy(before, k);
    PumpDrains(before, k);
    StuckIsBounded(units, Closure(units, DEFAULT_UNIT), t);
  }

  lemma LoadedIsInitial(units: UnitSet, order: seq<Name>, cgroups: seq<Name>, sockets: seq<Bound>)
    requires AllValid(units)
    ensures var s := Loaded(units, order, cgroups, sockets);
            Initial(s) && Safe(s, [], []) && InOrder(s.pending, s.order)
  {
  }
}
