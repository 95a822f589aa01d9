/** Every event keeps the supervisor safe, so every run does. */
module SupervisionRuns {
  import opened Names
  import opened Wrappers
  import opened Services
  import opened Alarms
  import opened Supervision
  import opened SupervisionSafety

  /** On the way down: nothing is spawned, nothing starts to stop anew, and nothing is up. */
  ghost predicate Fading(s: Sup, t: Sup)
  {
    forall n | n in t.instances ::
      && Quiet(t.instances[n])
      && (t.instances[n].state.Deactivating? ==> n in s.instances && s.instances[n].state.Deactivating?)
      && (t.instances[n].child.Some? ==> n in s.instances && s.instances[n].child == t.instances[n].child)
  }

  /** What every operation but beginning a shutdown keeps. */
  ghost predicate Keeps(s: Sup, t: Sup)
  {
    t.shutdown == s.shutdown && (s.shutdown.Some? ==> Fading(s, t))
  }

  lemma KeepsTransitive(s: Sup, t: Sup, u: Sup)
    requires Keeps(s, t) && Keeps(t, u)
    ensures Keeps(s, u)
  {
  }

  /** Safety looks at the instances, the queues and the shutdown, and at nothing else. */
  lemma SameKeeps(s: Sup, t: Sup, batch: seq<Alarm>, wallBatch: seq<Alarm>)
    requires Safe(s, batch, wallBatch)
    requires t.instances == s.instances && t.heap == s.heap && t.wallHeap == s.wallHeap && t.shutdown == s.shutdown
    requires s.clock <= t.clock
    ensures Safe(t, batch, wallBatch) && Keeps(s, t)
  {
    LaterCovers(s, t, batch, wallBatch);
    forall n | n in t.instances ensures Watched(DueOf(t, batch, wallBatch), n, t.instances[n]) {
      assert Watched(DueOf(s, batch, wallBatch), n, s.instances[n]);
    }
    forall a, b | a != b && Up(t, a) && Up(t, b) ensures !Conflict(t, a, b) {
      assert Up(s, a) && Up(s, b);
      assert !Conflict(s, a, b);
    }
  }

  /** What a change to one unit may do to it while the machine is going down. */
  ghost predicate FadesAt(s: Sup, t: Sup, n: Name)
  {
    n in s.instances && n in t.instances ==>
      && Quiet(t.instances[n])
      && (t.instances[n].state.Deactivating? ==> s.instances[n].state.Deactivating?)
      && (t.instances[n].child.Some? ==> s.instances[n].child == t.instances[n].child)
  }

  lemma ChangeSafe(s: Sup, t: Sup, n: Name, batch: seq<Alarm>, wallBatch: seq<Alarm>)
    requires Safe(s, batch, wallBatch) && Touches(s, t, n)
    requires Covers(DueOf(t, batch, wallBatch), DueOf(s, batch, wallBatch))
    requires n in s.instances ==> Watched(DueOf(t, batch, wallBatch), n, t.instances[n])
    requires Up(t, n) ==> Up(s, n)
    requires s.shutdown.Some? ==> FadesAt(s, t, n)
    ensures Safe(t, batch, wallBatch) && Keeps(s, t)
  {
    hide Bounded, Exclusive, Covers, Watched;
    ChangeBounded(s, t, n, batch, wallBatch);
    TouchingLowers(s, t, n);
    LoweringIsExclusive(s, t);
  }

  lemma StopKeeps(s: Sup, n: Name, cause: StopCause, k: Kernel, batch: seq<Alarm>, wallBatch: seq<Alarm>)
    requires Safe(s, batch, wallBatch)
    ensures Safe(Stop(s, n, cause, k), batch, wallBatch) && Keeps(s, Stop(s, n, cause, k))
  {
    var t := Stop(s, n, cause, k);
    StopSafe(s, n, cause, k, batch, wallBatch);
    StopTouches(s, n, cause, k);
    if s.shutdown.Some? && n in s.instances {
      assert Watched(DueOf(s, batch, wallBatch), n, s.instances[n]);
      assert Quiet(s.instances[n]);
      assert FadesAt(s, t, n);
    }
  }

  lemma StartKeeps(s: Sup, n: Name, k: Kernel, batch: seq<Alarm>, wallBatch: seq<Alarm>)
    requires Safe(s, batch, wallBatch)
    ensures Safe(Start(s, n, k), batch, wallBatch) && Keeps(s, Start(s, n, k))
  {
    StartSafe(s, n, k, batch, wallBatch);
  }

  // ----- The start queue -----

  lemma DequeueKeeps(s: Sup, n: Name, k: Kernel)
    requires Safe(s, [], []) && n in s.pending
    ensures Safe(Dequeue(s, n, k), [], []) && Keeps(s, Dequeue(s, n, k))
  {
    var mid := s.(pending := Without(s.pending, n));
    SameKeeps(s, mid, [], []);
    if RequirementFailed(mid, n) {
      var t := Put(mid, n, mid.instances[n].FailedToStart());
      PutTouches(mid, t, n, mid.instances[n].FailedToStart());
      assert Watched(DueOf(mid, [], []), n, mid.instances[n]);
      ChangeSafe(mid, t, n, [], []);
    } else {
      StartKeeps(mid, n, k, [], []);
    }
  }

  lemma {:induction false} PumpKeeps(s: Sup, k: Kernel)
    requires Safe(s, [], [])
    ensures Safe(Pump(s, k), [], []) && Keeps(s, Pump(s, k))
    decreases |s.pending|
  {
    hide Safe, Keeps, Dequeue, OrderingSatisfied;
    if s.shutdown.Some? {
      SameKeeps(s, s.(pending := []), [], []);
    } else {
      match NextStartable(s, s.pending)
      case None => SameKeeps(s, s, [], []);
      case Some(n) =>
        DequeueKeeps(s, n, k);
        PumpKeeps(Dequeue(s, n, k), k);
        KeepsTransitive(s, Dequeue(s, n, k), Pump(s, k));
    }
  }

  // ----- The ends of things -----

  /** How a unit can come out of an exit or the end of a stop. */
  ghost predicate Ended(before: Runtime, after: Runtime, delay: Option<nat>)
  {
    && after.unit == before.unit && after.child.None?
    && (before.backoff <= LongestBackoff(before.unit) ==>
          after.backoff <= LongestBackoff(before.unit) && (delay.Some? ==> delay.value <= LongestBackoff(before.unit)))
    && (delay.Some? ==> after.state.Restarting? && after.unit.IsService())
    && (delay.None? ==> after.Idle() || after == before.(child := None))
  }

  lemma DeactivatedEnds(i: Runtime, now: nat)
    ensures Ended(i, i.Deactivated(now).0, i.Deactivated(now).1)
    ensures i.Deactivated(now).1.None? ==> i.Deactivated(now).0.Idle()
  {
  }

  lemma OnExitEnds(i: Runtime, exit: Exit, now: nat)
    ensures Ended(i, i.OnExit(exit, now).0, i.OnExit(exit, now).1)
    ensures i.OnExit(exit, now).1.None? && !i.OnExit(exit, now).0.Idle() ==> i.state.Deactivating?
    ensures i.state.Deactivating? ==> i.OnExit(exit, now).1.None?
  {
  }

  /** Settling changes one unit, loses no deadline, and leaves a restart it schedules with its alarm. */
  lemma SettleWatched(
      s: Sup, n: Name, after: Runtime, delay: Option<nat>, now: nat, batch: seq<Alarm>, wallBatch: seq<Alarm>)
    requires n in s.instances && Watched(DueOf(s, batch, wallBatch), n, s.instances[n])
    requires Ended(s.instances[n], after, delay)
    requires delay.None? && !after.Idle() ==> s.instances[n].state.Deactivating?
    requires now <= s.clock
    ensures var t := Settle(s, n, after, delay, now);
            && Touches(s, t, n)
            && Covers(DueOf(t, batch, wallBatch), DueOf(s, batch, wallBatch))
            && Watched(DueOf(t, batch, wallBatch), n, t.instances[n])
  {
    hide Covers, Push, HoldsBy, Holds;
    var t := Settle(s, n, after, delay, now);
    PutTouches(s, t, n, if delay.Some? && s.shutdown.Some? then after.CancelRestart() else after);
    if delay.Some? && s.shutdown.None? {
      EnqueueCovers(s, t, delay.value, RestartDue(n), now, batch, wallBatch);
    } else {
      LaterCovers(s, t, batch, wallBatch);
    }
  }

  lemma SettleKeeps(
      s: Sup, n: Name, after: Runtime, delay: Option<nat>, now: nat, batch: seq<Alarm>, wallBatch: seq<Alarm>)
    requires Safe(s, batch, wallBatch) && n in s.instances
    requires Ended(s.instances[n], after, delay)
    requires delay.None? && !after.Idle() ==> s.instances[n].state.Deactivating?
    requires now <= s.clock
    ensures var t := Settle(s, n, after, delay, now);
            Safe(t, batch, wallBatch) && Keeps(s, t) && t.instances.Keys == s.instances.Keys
  {
    hide Covers, Watched, HoldsBy, Holds;
    var t := Settle(s, n, after, delay, now);
    assert Watched(DueOf(s, batch, wallBatch), n, s.instances[n]);
    SettleWatched(s, n, after, delay, now, batch, wallBatch);
    ChangeSafe(s, t, n, batch, wallBatch);
  }

  lemma FinishDeactivationKeeps(s: Sup, n: Name, k: Kernel)
    requires Safe(s, [], [])
    ensures Safe(FinishDeactivation(s, n, k), [], []) && Keeps(s, FinishDeactivation(s, n, k))
  {
    hide Safe, Keeps, Settle, Start;
    var now, drew := k(s.asked).now, Drew(s, k);
    SameKeeps(s, drew, [], []);
    if n in s.instances && s.instances[n].state.Deactivating? {
      var (after, delay) := s.instances[n].Deactivated(now);
      DeactivatedEnds(s.instances[n], now);
      var mid := Settle(drew, n, after, delay, now);
      SettleKeeps(drew, n, after, delay, now, [], []);
      KeepsTransitive(s, drew, mid);
      if n in mid.pendingRestart {
        var asked := mid.(pendingRestart := mid.pendingRestart - {n});
        SameKeeps(mid, asked, [], []);
        StartKeeps(asked, n, k, [], []);
        KeepsTransitive(mid, asked, Start(asked, n, k));
        KeepsTransitive(s, mid, Start(asked, n, k));
      }
    }
  }

  /** A forking service has nothing to ping, so once it is up it owes nothing. */
  lemma ForkedIsWatched(d: Due, n: Name, i: Runtime, now: nat)
    requires Watched(d, n, i) && i.unit.IsService() && i.unit.kind.service.ty.Forking?
    ensures Watched(d, n, i.ForkedAway(now)) && Watched(d, n, i.FailedToStart())
  {
    hide Due.Has, Due.HasFiring;
  }

  lemma ForkingKeeps(s: Sup, n: Name, exit: Exit, a: Answer)
    requires Safe(s, [], []) && n in s.instances && s.instances[n].state.Activating?
    requires s.instances[n].unit.IsService() && s.instances[n].unit.kind.service.ty.Forking?
    ensures Safe(ForkingParentExited(s, n, exit, a), [], []) && Keeps(s, ForkingParentExited(s, n, exit, a))
  {
    hide Due.Has, Due.HasFiring, Exclusive, Watched;
    var t, i := ForkingParentExited(s, n, exit, a), s.instances[n];
    assert Watched(DueOf(s, [], []), n, i);
    ForkedIsWatched(DueOf(s, [], []), n, i, a.now);
    if n in s.cgroups && exit.Clean? && a.populated {
      PutTouches(s, t, n, i.ForkedAway(a.now));
    } else {
      PutTouches(s, t, n, i.FailedToStart());
    }
    ChangeSafe(s, t, n, [], []);
  }

  lemma ReapKeeps(s: Sup, pid: nat, exit: Exit, k: Kernel)
    requires Safe(s, [], [])
    ensures Safe(Reap(s, pid, exit, k), [], []) && Keeps(s, Reap(s, pid, exit, k))
  {
    hide Settle, FinishDeactivation, ForkingParentExited, Safe, Keeps, UnitForPid;
    var a, drew := k(s.asked), Drew(s, k);
    SameKeeps(s, drew, [], []);
    match UnitForPid(drew, pid)
    case None =>
    case Some(n) =>
      var i := drew.instances[n];
      if i.unit.IsService() && i.unit.kind.service.ty.Forking? && i.state.Activating? {
        ForkingKeeps(drew, n, exit, a);
        KeepsTransitive(s, drew, ForkingParentExited(drew, n, exit, a));
      } else {
        var (after, delay) := i.OnExit(exit, a.now);
        OnExitEnds(i, exit, a.now);
        var mid := Settle(drew, n, after, delay, a.now);
        SettleKeeps(drew, n, after, delay, a.now, [], []);
        FinishDeactivationKeeps(mid, n, k);
        KeepsTransitive(s, drew, mid);
        KeepsTransitive(s, mid, FinishDeactivation(mid, n, k));
      }
  }

  lemma {:induction false} ReapAllKeeps(s: Sup, reaped: seq<Reaped>, k: Kernel)
    requires Safe(s, [], [])
    ensures Safe(ReapAll(s, reaped, k), [], []) && Keeps(s, ReapAll(s, reaped, k))
    decreases |reaped|
  {
    hide Safe, Keeps;
    if reaped == [] {
      SameKeeps(s, s, [], []);
    } else {
      var mid := Reap(s, reaped[0].pid, reaped[0].exit, k);
      ReapKeeps(s, reaped[0].pid, reaped[0].exit, k);
      ReapAllKeeps(mid, reaped[1..], k);
      KeepsTransitive(s, mid, ReapAll(s, reaped, k));
    }
  }

  lemma VanishedKeeps(s: Sup, n: Name, now: nat)
    requires Safe(s, [], []) && n in s.instances && s.instances[n].state.Active? && now <= s.clock
    ensures Safe(UnitVanished(s, n, now), [], []) && Keeps(s, UnitVanished(s, n, now))
  {
    var (after, delay) := s.instances[n].OnExit(Abnormal, now);
    OnExitEnds(s.instances[n], Abnormal, now);
    SettleKeeps(s, n, after, delay, now, [], []);
    assert s.shutdown.None?;
    assert UnitVanished(s, n, now) == Settle(s, n, after, delay, now);
  }

  lemma OnCgroupKeeps(s: Sup, id: nat, populated: Option<bool>, k: Kernel)
    requires Safe(s, [], [])
    ensures Safe(OnCgroup(s, id, populated, k), [], []) && Keeps(s, OnCgroup(s, id, populated, k))
  {
    hide FinishDeactivation, UnitVanished, Safe, Keeps;
    var now, drew := k(s.asked).now, Drew(s, k);
    SameKeeps(s, drew, [], []);
    if id < |s.cgroups| && s.cgroups[id] in s.instances {
      var n := s.cgroups[id];
      FinishDeactivationKeeps(drew, n, k);
      KeepsTransitive(s, drew, FinishDeactivation(drew, n, k));
      if s.instances[n].state.Active? {
        VanishedKeeps(drew, n, now);
        KeepsTransitive(s, drew, UnitVanished(drew, n, now));
      }
    }
  }

  // ----- Notifications -----

  lemma ReceiveKeeps(s: Sup, m: Message, k: Kernel)
    requires Safe(s, [], [])
    ensures Safe(Receive(s, m, k), [], []) && Keeps(s, Receive(s, m, k))
  {
    hide Safe, Keeps, Become, Heard, UnitForPid;
    var now, drew := k(s.asked).now, Drew(s, k);
    SameKeeps(s, drew, [], []);
    match UnitForPid(drew, m.pid)
    case None =>
    case Some(n) =>
      BecomeKeeps(drew, n, Heard(drew.instances[n], m, now), m.ready, now);
      KeepsTransitive(s, drew, Receive(s, m, k));
  }

  lemma BecomeKeeps(s: Sup, n: Name, i: Runtime, ready: bool, now: nat)
    requires Safe(s, [], []) && n in s.instances
    requires i.unit == s.instances[n].unit && i.state == s.instances[n].state
    requires i.child == s.instances[n].child && i.killed == s.instances[n].killed
    requires i.backoff == s.instances[n].backoff && now <= s.clock
    ensures Safe(Become(s, n, i, ready, now), [], []) && Keeps(s, Become(s, n, i, ready, now))
  {
    hide Push, HoldsBy, Holds, Safe, Keeps, Covers, Touches, DueOf;
    var t := Become(s, n, i, ready, now);
    var r := if ready && i.state.Activating? then i.EnteredActive(now) else i;
    PutTouches(s, t, n, r);
    if ready && i.state.Activating? && i.Watchdog().Some? {
      EnqueueCovers(s, t, i.Watchdog().value, Alarm.WatchdogCheck(n), now, [], []);
    } else {
      LaterCovers(s, t, [], []);
    }
    BecomeSafe(s, t, n, r);
  }

  lemma BecomeSafe(s: Sup, t: Sup, n: Name, r: Runtime)
    requires Safe(s, [], []) && n in s.instances && Touches(s, t, n) && t.instances[n] == r
    requires r.backoff == s.instances[n].backoff
    requires Covers(DueOf(t, [], []), DueOf(s, [], []))
    requires r.unit == s.instances[n].unit && r.child == s.instances[n].child && r.killed == s.instances[n].killed
    requires r.state == s.instances[n].state || (r.state.Active? && s.instances[n].state.Activating?)
    requires r.state.Active? && !s.instances[n].state.Active? && r.Watchdog().Some? ==>
               DueOf(t, [], []).Has(Alarm.WatchdogCheck(n), r.Watchdog().value)
    ensures Safe(t, [], []) && Keeps(s, t)
  {
    hide Due.Has, Due.HasFiring, Covers, Exclusive;
    assert Watched(DueOf(s, [], []), n, s.instances[n]);
    CoveredStaysWatched(DueOf(t, [], []), DueOf(s, [], []), n, s.instances[n]);
    ChangeSafe(s, t, n, [], []);
  }

  lemma {:induction false} ReceiveAllKeeps(s: Sup, messages: seq<Message>, k: Kernel)
    requires Safe(s, [], [])
    ensures Safe(ReceiveAll(s, messages, k), [], []) && Keeps(s, ReceiveAll(s, messages, k))
    decreases |messages|
  {
    hide Safe, Keeps;
    if messages == [] {
      SameKeeps(s, s, [], []);
    } else {
      ReceiveKeeps(s, messages[0], k);
      ReceiveAllKeeps(Receive(s, messages[0], k), messages[1..], k);
      KeepsTransitive(s, Receive(s, messages[0], k), ReceiveAll(s, messages, k));
    }
  }
}
