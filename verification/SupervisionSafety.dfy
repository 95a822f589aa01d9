/** What every step of the supervisor keeps: bounded waits and mutual exclusion. */
module SupervisionSafety {
  import opened Names
  import opened Wrappers
  import opened Units
  import opened Services
  import opened Alarms
  import opened Calendars
  import opened Supervision

  /** A deadline is outstanding, or was popped in the batch still being handled. */
  ghost predicate Owed(queue: multiset<Entry>, batch: seq<Alarm>, a: Alarm)
  {
    Holds(queue, a) || a in batch
  }

  /** The deadlines there are: both queues, what is left of a batch popped from each, and the latest moment reported. */
  datatype Due = Due(
    heap: multiset<Entry>,
    batch: seq<Alarm>,
    wallHeap: multiset<Entry>,
    wallBatch: seq<Alarm>,
    clock: nat
  )
  {
    /** `a` is owed no later than `limit` from now. */
    ghost predicate Has(a: Alarm, limit: nat)
    {
      HoldsBy(heap, a, clock + limit) || a in batch
    }

    ghost predicate HasFiring(n: Name)
    {
      Owed(heap, batch, TimerElapsed(n)) || Owed(wallHeap, wallBatch, TimerElapsed(n))
    }
  }

  /** Everything `d` owes, `e` still owes. */
  ghost predicate Covers(e: Due, d: Due)
  {
    && (forall a, limit: nat | d.Has(a, limit) :: e.Has(a, limit))
    && (forall n | d.HasFiring(n) :: e.HasFiring(n))
  }

  /** The longest a restart policy ever waits for this unit. */
  function LongestBackoff(u: Unit): nat
  {
    if BaseBackoff(u) <= MAX_BACKOFF then MAX_BACKOFF else BaseBackoff(u)
  }

  /** The units that take time to come up: every service but a simple one, which is up once it is forked. */
  predicate Waits(u: Unit)
  {
    u.IsService() && !u.kind.service.ty.Simple?
  }

  /** No wait without a deadline: what one unit's state owes the queues. */
  ghost predicate Watched(d: Due, n: Name, r: Runtime)
  {
    && r.unit.Valid()
    && r.backoff <= LongestBackoff(r.unit)
    && (r.child.Some? ==> r.state.Activating? || r.state.Active? || r.state.Deactivating?)
    && (r.state.Activating? || r.state.Deactivating? || r.state.Restarting? ==> r.unit.IsService())
    && (r.state.Restarting? ==> d.Has(RestartDue(n), LongestBackoff(r.unit)))
    && (r.state.Activating? ==> Waits(r.unit) && d.Has(StartTimeout(n), r.unit.kind.service.startSec))
    && (r.state.Deactivating? ==> r.killed || d.Has(StopTimeout(n), r.unit.kind.service.stopSec))
    && (r.state.Active? && r.Watchdog().Some? ==> d.Has(Alarm.WatchdogCheck(n), r.Watchdog().value))
    && (r.state.Active? && r.unit.IsTimer() && r.unit.kind.schedule.Recurring() ==> d.HasFiring(n))
  }

  function DueOf(s: Sup, batch: seq<Alarm>, wallBatch: seq<Alarm>): Due
  {
    Due(s.heap, batch, s.wallHeap, wallBatch, s.clock)
  }

  ghost predicate Bounded(s: Sup, batch: seq<Alarm>, wallBatch: seq<Alarm>)
  {
    forall n | n in s.instances :: Watched(DueOf(s, batch, wallBatch), n, s.instances[n])
  }

  predicate Up(s: Sup, n: Name)
  {
    n in s.instances && (s.instances[n].state.Activating? || s.instances[n].state.Active?)
  }

  /** No two distinct units that conflict in either direction are both up. */
  ghost predicate Exclusive(s: Sup)
  {
    forall a, b | a != b && Up(s, a) && Up(s, b) :: !Conflict(s, a, b)
  }

  predicate Quiet(r: Runtime)
  {
    r.Idle() || r.state.Deactivating?
  }

  /** On the way down nothing is up and nothing is coming back. */
  ghost predicate Closed(s: Sup)
  {
    s.shutdown.Some? ==> forall n | n in s.instances :: Quiet(s.instances[n])
  }

  ghost predicate Safe(s: Sup, batch: seq<Alarm>, wallBatch: seq<Alarm>)
  {
    Bounded(s, batch, wallBatch) && Exclusive(s) && Closed(s)
  }

  /** Definitions are fixed: only `reload` changes which units there are or what they say. */
  ghost predicate SameUnits(s: Sup, t: Sup)
  {
    && t.instances.Keys == s.instances.Keys
    && (forall n | n in s.instances :: t.instances[n].unit == s.instances[n].unit)
    && t.order == s.order && t.cgroups == s.cgroups && t.sockets == s.sockets
  }

  /** Nothing came up. */
  ghost predicate OnlyLowers(s: Sup, t: Sup)
  {
    SameUnits(s, t) && t.shutdown == s.shutdown && forall n | Up(t, n) :: Up(s, n)
  }

  /** One unit at most has changed, and not its definition. */
  ghost predicate Touches(s: Sup, t: Sup, n: Name)
  {
    && t.instances.Keys == s.instances.Keys
    && (forall x | x in s.instances && x != n :: t.instances[x] == s.instances[x])
    && (n in s.instances ==> t.instances[n].unit == s.instances[n].unit)
    && t.order == s.order && t.cgroups == s.cgroups && t.sockets == s.sockets
    && t.shutdown == s.shutdown
  }

  /** How every change to one unit is made. */
  lemma PutTouches(s: Sup, t: Sup, n: Name, r: Runtime)
    requires n in s.instances && r.unit == s.instances[n].unit && t.instances == s.instances[n := r]
    requires t.order == s.order && t.cgroups == s.cgroups && t.sockets == s.sockets && t.shutdown == s.shutdown
    ensures Touches(s, t, n) && t.instances[n] == r
  {
    assert t.instances.Keys == s.instances.Keys;
  }

  lemma TouchingLowers(s: Sup, t: Sup, n: Name)
    requires Touches(s, t, n) && (Up(t, n) ==> Up(s, n))
    ensures OnlyLowers(s, t)
  {
  }

  /** A change to one unit that loses no deadline keeps every wait bounded, if the changed unit's are. */
  lemma ChangeBounded(s: Sup, t: Sup, n: Name, batch: seq<Alarm>, wallBatch: seq<Alarm>)
    requires Bounded(s, batch, wallBatch) && Touches(s, t, n)
    requires Covers(DueOf(t, batch, wallBatch), DueOf(s, batch, wallBatch))
    requires n in s.instances ==> Watched(DueOf(t, batch, wallBatch), n, t.instances[n])
    ensures Bounded(t, batch, wallBatch)
  {
    forall x | x in t.instances ensures Watched(DueOf(t, batch, wallBatch), x, t.instances[x]) {
      if x != n {
        assert Watched(DueOf(s, batch, wallBatch), x, s.instances[x]);
      }
    }
  }

  /** A unit that has not changed is as well watched by whoever owes at least as much. */
  lemma CoveredStaysWatched(e: Due, d: Due, n: Name, r: Runtime)
    requires Covers(e, d) && Watched(d, n, r)
    ensures Watched(e, n, r)
  {
    hide Due.Has, Due.HasFiring;
  }

  /** As time passes what is owed only comes closer. */
  lemma LaterCovers(s: Sup, t: Sup, batch: seq<Alarm>, wallBatch: seq<Alarm>)
    requires t.heap == s.heap && t.wallHeap == s.wallHeap && s.clock <= t.clock
    ensures Covers(DueOf(t, batch, wallBatch), DueOf(s, batch, wallBatch))
  {
  }

  /** What arming one more alarm owes: everything it owed before, and that alarm within its delay. */
  lemma EnqueueCovers(s: Sup, t: Sup, delay: nat, alarm: Alarm, now: nat, batch: seq<Alarm>, wallBatch: seq<Alarm>)
    requires t.heap == Push(s.heap, Entry(now + delay, alarm)) && t.wallHeap == s.wallHeap
    requires s.clock <= t.clock && now <= t.clock
    ensures Covers(DueOf(t, batch, wallBatch), DueOf(s, batch, wallBatch))
    ensures DueOf(t, batch, wallBatch).Has(alarm, delay)
  {
  }

  // ----- Stopping -----

  lemma StopTouches(s: Sup, n: Name, cause: StopCause, k: Kernel)
    ensures Touches(s, Stop(s, n, cause, k), n)
    ensures n in s.instances ==> Quiet(Stop(s, n, cause, k).instances[n])
  {
    var t := Stop(s, n, cause, k);
    if n in s.instances {
      var i, now := s.instances[n], k(s.asked).now;
      if i.state.Restarting? {
        PutTouches(s, t, n, i.CancelRestart());
      } else if !i.unit.IsService() {
        PutTouches(s, t, n, i.EnteredDeactivating(cause).Deactivated(now).0);
      } else if !i.Idle() && !i.state.Deactivating? {
        PutTouches(s, t, n, i.EnteredDeactivating(cause));
      }
    }
  }

  lemma StopLowers(s: Sup, n: Name, cause: StopCause, k: Kernel)
    ensures OnlyLowers(s, Stop(s, n, cause, k)) && !Up(Stop(s, n, cause, k), n)
  {
    StopTouches(s, n, cause, k);
    TouchingLowers(s, Stop(s, n, cause, k), n);
  }

  lemma StopBounded(s: Sup, n: Name, cause: StopCause, k: Kernel, batch: seq<Alarm>, wallBatch: seq<Alarm>)
    requires Bounded(s, batch, wallBatch)
    ensures Bounded(Stop(s, n, cause, k), batch, wallBatch)
  {
    hide Stop, Covers;
    StopTouches(s, n, cause, k);
    StopWatched(s, n, cause, k, batch, wallBatch);
    ChangeBounded(s, Stop(s, n, cause, k), n, batch, wallBatch);
  }

  lemma StopWatched(s: Sup, n: Name, cause: StopCause, k: Kernel, batch: seq<Alarm>, wallBatch: seq<Alarm>)
    requires n in s.instances ==> Watched(DueOf(s, batch, wallBatch), n, s.instances[n])
    ensures var t := Stop(s, n, cause, k);
            && Covers(DueOf(t, batch, wallBatch), DueOf(s, batch, wallBatch))
            && (n in s.instances ==> n in t.instances && Watched(DueOf(t, batch, wallBatch), n, t.instances[n]))
  {
    hide Push, Covers, Due.Has, Due.HasFiring;
    var t := Stop(s, n, cause, k);
    if n in s.instances && s.instances[n].unit.IsService() && Up(s, n) {
      var service := s.instances[n].unit.kind.service;
      EnqueueCovers(s, t, service.stopSec, Alarm.StopTimeout(n), k(s.asked).now, batch, wallBatch);
    } else {
      LaterCovers(s, t, batch, wallBatch);
      if n in s.instances {
        CoveredStaysWatched(DueOf(t, batch, wallBatch), DueOf(s, batch, wallBatch), n, s.instances[n]);
      }
    }
  }

  /** Fewer units up, under the same definitions, is still exclusive. */
  lemma LoweringIsExclusive(s: Sup, t: Sup)
    requires Exclusive(s) && OnlyLowers(s, t)
    ensures Exclusive(t)
  {
    forall a, b | a != b && Up(t, a) && Up(t, b) ensures !Conflict(t, a, b) {
      assert Up(s, a) && Up(s, b);
      assert !Conflict(s, a, b);
    }
  }

  lemma StopSafe(s: Sup, n: Name, cause: StopCause, k: Kernel, batch: seq<Alarm>, wallBatch: seq<Alarm>)
    requires Safe(s, batch, wallBatch)
    ensures Safe(Stop(s, n, cause, k), batch, wallBatch)
  {
    StopLowers(s, n, cause, k);
    StopBounded(s, n, cause, k, batch, wallBatch);
    LoweringIsExclusive(s, Stop(s, n, cause, k));
  }

  // ----- Starting -----

  lemma {:induction false} StopConflictsSafe(
      s: Sup, names: seq<Name>, k: Kernel, batch: seq<Alarm>, wallBatch: seq<Alarm>)
    requires Safe(s, batch, wallBatch)
    ensures var t := StopConflicts(s, names, k);
            && Safe(t, batch, wallBatch) && OnlyLowers(s, t)
            && (forall n | n in names :: !Up(t, n))
    decreases |names|
  {
    if names != [] {
      var mid := if Busy(s, names[0]) then Stop(s, names[0], Requested, k) else s;
      if Busy(s, names[0]) {
        StopSafe(s, names[0], Requested, k, batch, wallBatch);
        StopLowers(s, names[0], Requested, k);
      }
      assert !Up(mid, names[0]);
      StopConflictsSafe(mid, names[1..], k, batch, wallBatch);
    }
  }

  lemma ActivateTouches(s: Sup, n: Name, k: Kernel)
    ensures Touches(s, Activate(s, n, k), n)
    ensures n in s.instances ==> !Activate(s, n, k).instances[n].state.Restarting?
  {
    var t, a := Activate(s, n, k), k(s.asked);
    if n in s.instances {
      var i := s.instances[n];
      match i.unit.kind
      case ServiceKind(service) => LaunchTouches(Drew(s, k), n, service, a);
      case _ => PutTouches(s, t, n, i.EnteredActive(a.now));
    }
  }

  lemma LaunchTouches(s: Sup, n: Name, service: Service, a: Answer)
    requires n in s.instances
    ensures Touches(s, Launch(s, n, service, a), n)
    ensures !Launch(s, n, service, a).instances[n].state.Restarting?
  {
    var t, i := Launch(s, n, service, a), s.instances[n];
    if !Prepared(s, n, service, a) || a.spawned.None? {
      PutTouches(s, t, n, i.FailedToStart());
    } else if service.ty.Simple? {
      PutTouches(s, t, n, i.EnteredActivating(a.spawned.value).EnteredActive(a.now));
    } else {
      PutTouches(s, t, n, i.EnteredActivating(a.spawned.value));
    }
  }

  /** A launched service is either down, up at once, or bounded by its start timeout. */
  lemma LaunchWatched(s: Sup, n: Name, service: Service, a: Answer, batch: seq<Alarm>, wallBatch: seq<Alarm>)
    requires n in s.instances && s.instances[n].unit.kind == ServiceKind(service) && s.instances[n].unit.Valid()
    requires s.instances[n].backoff <= LongestBackoff(s.instances[n].unit) && a.now <= s.clock
    ensures var t := Launch(s, n, service, a);
            && Covers(DueOf(t, batch, wallBatch), DueOf(s, batch, wallBatch))
            && Watched(DueOf(t, batch, wallBatch), n, t.instances[n])
  {
    LaunchTouches(s, n, service, a);
  }

  lemma ArmCovers(s: Sup, n: Name, next: Option<Next>, now: nat, batch: seq<Alarm>, wallBatch: seq<Alarm>)
    ensures var t := Arm(s, n, next, now);
            && t.instances == s.instances
            && Covers(DueOf(t, batch, wallBatch), DueOf(s, batch, wallBatch))
            && (next.Some? ==> DueOf(t, batch, wallBatch).HasFiring(n))
  {
  }

  lemma ActivateWatched(s: Sup, n: Name, k: Kernel, batch: seq<Alarm>, wallBatch: seq<Alarm>)
    requires n in s.instances && Watched(DueOf(s, batch, wallBatch), n, s.instances[n])
    ensures var t := Activate(s, n, k);
            && Covers(DueOf(t, batch, wallBatch), DueOf(s, batch, wallBatch))
            && Watched(DueOf(t, batch, wallBatch), n, t.instances[n])
  {
    var a, i := k(s.asked), s.instances[n];
    match i.unit.kind
    case ServiceKind(service) => LaunchWatched(Drew(s, k), n, service, a, batch, wallBatch);
    case TimerKind(schedule, _) =>
      ArmCovers(Put(Drew(s, k), n, i.EnteredActive(a.now)), n, schedule.First(a.wall), a.now, batch, wallBatch);
    case _ =>
  }

  lemma ActivateBounded(s: Sup, n: Name, k: Kernel, batch: seq<Alarm>, wallBatch: seq<Alarm>)
    requires Bounded(s, batch, wallBatch)
    ensures Bounded(Activate(s, n, k), batch, wallBatch)
  {
    ActivateTouches(s, n, k);
    if n in s.instances {
      ActivateWatched(s, n, k, batch, wallBatch);
      ChangeBounded(s, Activate(s, n, k), n, batch, wallBatch);
    }
  }

  /** Only what is already down conflicts with the unit that comes up. */
  lemma ActivateExclusive(s: Sup, n: Name, k: Kernel)
    requires Exclusive(s)
    requires forall x | x != n && Conflict(s, n, x) :: !Up(s, x)
    ensures Exclusive(Activate(s, n, k))
  {
    var t := Activate(s, n, k);
    ActivateTouches(s, n, k);
    forall a, b | a != b && Up(t, a) && Up(t, b) ensures !Conflict(t, a, b) {
      assert Conflict(t, a, b) <==> Conflict(s, a, b);
      assert Conflict(s, a, b) <==> Conflict(s, b, a);
      if a != n { assert Up(s, a); }
      if b != n { assert Up(s, b); }
    }
  }

  /** Starting, once everything the unit excludes is down. */
  lemma ActivateSafe(s: Sup, n: Name, k: Kernel, batch: seq<Alarm>, wallBatch: seq<Alarm>)
    requires Safe(s, batch, wallBatch) && s.shutdown.None?
    requires forall x | x != n && Conflict(s, n, x) :: !Up(s, x)
    ensures Safe(Activate(s, n, k), batch, wallBatch) && SameUnits(s, Activate(s, n, k))
  {
    hide Activate, Bounded, Exclusive;
    ActivateTouches(s, n, k);
    ActivateBounded(s, n, k, batch, wallBatch);
    ActivateExclusive(s, n, k);
  }

  /** Once what `n` excludes has been stopped, none of it is up. */
  lemma ExcludedAreDown(s: Sup, t: Sup, n: Name)
    requires OnlyLowers(s, t) && forall x | x in ConflictingWith(s, n) :: !Up(t, x)
    ensures forall x | x != n && Conflict(t, n, x) :: !Up(t, x)
  {
    hide ConflictingWith;
    forall x | x != n && Conflict(t, n, x) ensures !Up(t, x) {
      if x in s.instances { assert Conflict(s, n, x); }
    }
  }

  lemma SameUnitsTransitive(s: Sup, t: Sup, u: Sup)
    requires SameUnits(s, t) && SameUnits(t, u)
    ensures SameUnits(s, u)
  {
  }

  lemma StartSafe(s: Sup, n: Name, k: Kernel, batch: seq<Alarm>, wallBatch: seq<Alarm>)
    requires Safe(s, batch, wallBatch)
    ensures var t := Start(s, n, k);
            && Safe(t, batch, wallBatch) && SameUnits(s, t) && t.shutdown == s.shutdown
            && (s.shutdown.None? && n in s.instances ==> !t.instances[n].state.Restarting?)
  {
    hide StopConflicts, Activate, Safe, Up, Conflict, ConflictingWith;
    if s.shutdown.None? {
      var mid := StopConflicts(s, ConflictingWith(s, n), k);
      StopConflictsSafe(s, ConflictingWith(s, n), k, batch, wallBatch);
      ExcludedAreDown(s, mid, n);
      ActivateTouches(mid, n, k);
      ActivateSafe(mid, n, k, batch, wallBatch);
      SameUnitsTransitive(s, mid, Activate(mid, n, k));
    }
  }
}
